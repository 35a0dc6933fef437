/** What the handlers of the server leave on disk when an upload ends. */
module Cleanup {
  import opened Chunking
  import opened PacketFormat
  import R = RetryEngine
  import SawEndpoints

  /** The exceptions that can end a connection, grouped as the handlers of the server's `run` group them. */
  datatype Failure =
    | SocketShutdown | ConnectionLost
    | ConnectionClosingNeeded
    | MissingClientAddress | UnexpectedOperation | InvalidSequenceNumber | UnexpectedFin | ClientAlreadyConnected
    | MessageIsNotAck | MessageIsNotFinAck
    | OtherFailure

  predicate RunsCleanup(e: Failure) {
    e == SocketShutdown || e == ConnectionLost || e == OtherFailure
  }

  /** The storage directory. */
  class FileHandler {
    var files: map<Bytes, Bytes>

    constructor (files: map<Bytes, Bytes>)
      ensures this.files == files
    {
      this.files := files;
    }

    /** Removes the file unless its size on disk is the announced one; without an announced size, always. */
    method RemoveFileIfCorruptedOrIncomplete(filename: Bytes, filesize: Option<nat>)
      modifies this
      ensures var keep := filename in old(files) && filesize == Some(|old(files)[filename]|);
              files == if keep then old(files) else old(files) - {filename}
    {
      if filename !in files {
        return;
      }
      if filesize == None || |files[filename]| != filesize.value {
        files := files - {filename};
      }
    }

    /**
     * The failure branches of one connection. The name and size are those recorded so far: both are still unknown
     * while the configuration phase runs, and then nothing is removed.
     */
    method HandleFailure(e: Failure, filename: Option<Bytes>, filesize: Option<nat>)
      modifies this
      ensures files == AfterFailure(old(files), e, filename, filesize)
      ensures files == (if e in {SocketShutdown, ConnectionLost, OtherFailure} && filename.Some?
                           && !(filename.value in old(files) && filesize == Some(|old(files)[filename.value]|))
                        then old(files) - {filename.value} else old(files))
    {
      if e == SocketShutdown || e == ConnectionLost {
        if filename.Some? {
          RemoveFileIfCorruptedOrIncomplete(filename.value, filesize);
        }
      } else if e == OtherFailure {
        if filename.Some? {
          RemoveFileIfCorruptedOrIncomplete(filename.value, filesize);
        }
      }
    }
  }

  function AfterFailure(files: map<Bytes, Bytes>, e: Failure, filename: Option<Bytes>, filesize: Option<nat>)
    : map<Bytes, Bytes>
  {
    if !RunsCleanup(e) || filename == None then files
    else if filename.value in files && filesize == Some(|files[filename.value]|) then files
    else files - {filename.value}
  }

  /** The directory is neither as it was before the upload nor as it was with the client's file added. */
  predicate LeavesDamage(before: map<Bytes, Bytes>, after: map<Bytes, Bytes>, name: Bytes, source: Bytes) {
    after != before && after != before[name := source]
  }

  /** A prefix of the source that is as long as the source is the source: keeping by size is keeping by content. */
  lemma KeepsOnlyTheWhole(before: map<Bytes, Bytes>, name: Bytes, flushed: Bytes, source: Bytes, e: Failure)
    requires name !in before && flushed <= source && RunsCleanup(e)
    ensures AfterFailure(before[name := flushed], e, Some(name), Some(|source|))
            == if flushed == source then before[name := source] else before
  {
    assert before[name := flushed] - {name} == before;
    if |flushed| == |source| { assert flushed == source; }
  }

  /** A handler that removes nothing leaves any part of the file as damage. */
  lemma PartIsDamage(before: map<Bytes, Bytes>, name: Bytes, flushed: Bytes, source: Bytes,
                     e: Failure, filename: Option<Bytes>, filesize: Option<nat>)
    requires name !in before && |flushed| < |source| && (!RunsCleanup(e) || filename == None)
    ensures LeavesDamage(before, AfterFailure(before[name := flushed], e, filename, filesize), name, source)
  {
    assert before[name := flushed][name] != before[name := source][name];
  }

  /** What the end of an upload leaves behind: closing the file flushes it, and a failure goes to its handler. */
  function Left(before: map<Bytes, Bytes>, name: Bytes, flushed: Bytes, size: Option<nat>, e: Option<Failure>)
    : map<Bytes, Bytes>
  {
    if e == None then before[name := flushed] else AfterFailure(before[name := flushed], e.value, Some(name), size)
  }

  /** An empty file that is kept, because it is finished or because a size of zero was recorded. */
  lemma EmptyIsDamage(before: map<Bytes, Bytes>, name: Bytes, source: Bytes, e: Option<Failure>, size: Option<nat>)
    requires name !in before && source != [] && (e == None || size == Some(0))
    ensures LeavesDamage(before, Left(before, name, [], size, e), name, source)
  {
    assert before[name := []][name] != before[name := source][name];
  }

  /** The exceptions of one wait for a packet with the expected number. */
  predicate EndsWait(e: Failure) {
    e == SocketShutdown || e == ConnectionLost || e == InvalidSequenceNumber || e == OtherFailure
  }

  /** How the handlers see what the retry engine raises: a reception ends in nothing but these. */
  function FailureOfWait(x: R.Exception): (e: Failure)
    ensures SawEndpoints.SawFileReceiver.EndsReception(x) ==> EndsWait(e)
    ensures (e == SocketShutdown <==> x == R.SocketShutdown) && (e == ConnectionLost <==> x == R.ConnectionLost)
    ensures e == InvalidSequenceNumber <==> x == R.InvalidSequenceNumber
    ensures RunsCleanup(e) <==>
              && x != R.InvalidSequenceNumber && x != R.UnexpectedFinMessage
              && x != R.MessageIsNotAck && x != R.MessageIsNotFinAck
  {
    match x
    case SocketShutdown => SocketShutdown
    case ConnectionLost => ConnectionLost
    case InvalidSequenceNumber => InvalidSequenceNumber
    case MessageIsNotAck => MessageIsNotAck
    case MessageIsNotFinAck => MessageIsNotFinAck
    case UnexpectedFinMessage => UnexpectedFin
    case _ => OtherFailure
  }
}
