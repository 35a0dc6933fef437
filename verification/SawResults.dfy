/** What stop-and-wait guarantees in every reachable state, for uploads and for downloads. */
module SawResults {
  import opened Chunking
  import opened PacketFormat
  import opened StopAndWait

  /** The client of an upload has gone, and one packet of its goodbye was taken for the item after the last one sent. */
  predicate TookGoodbye(p: Plan, sys: Sys) {
    && 0 <= sys.s.item < |p.items|
    && sys.r.accepted == p.items[..sys.s.item + 1] + [[]]
    && (sys.s.phase == GaveUp || (sys.s.phase == Closed && !HasChunks(p)))
  }

  /**
   * One bit suffices. In every reachable state, in both directions, the receiver has accepted exactly the items
   * confirmed so far plus at most one, in order and each once, and as long as both ends stay the channels hold old
   * copies, then new copies. What comes on top is at most one empty packet, of a client of an upload that has gone.
   */
  lemma OneBitSuffices(p: Plan, sys: Sys)
    requires Reachable(p, sys)
    ensures 0 <= sys.s.item < |p.items|
    ensures var k := |sys.r.accepted|;
            || (k <= |p.items| && sys.r.accepted == p.items[..k] && (k == sys.s.item || k == sys.s.item + 1))
            || TookGoodbye(p, sys)
    ensures HasChunks(p) && sys.r.accepted == p.items ==> sys.r.done
    ensures sys.r.done ==>
              || (HasChunks(p) && sys.r.accepted == p.items)
              || (sys.s.phase == GaveUp && TookGoodbye(p, sys) && |sys.r.accepted| >= 3)
    ensures BothStay(sys) && sys.s.phase != Closed ==>
              var i := sys.s.item;
              && OldThenNew(sys.toReceiver, DataOf(p, i - 1), {DataOf(p, i)})
              && OldThenNew(sys.toSender, AckOf(p, i - 1), RepliesTo(p, i))
  {
    ReachableInv(p, sys);
    var i, n := sys.s.item, |p.items|;
    assert p.items[..n] == p.items;
    if TookGoodbye(p, sys) && i + 1 < n { assert sys.r.accepted[i + 1] == [] != p.items[i + 1]; }
    if BothStay(sys) && sys.s.phase != Closed {
      if |sys.r.accepted| == i {
        assert Boundary(sys.toSender, |sys.toSender|, AckOf(p, i - 1), RepliesTo(p, i));
      } else {
        assert Boundary(sys.toReceiver, 0, DataOf(p, i - 1), {DataOf(p, i)});
      }
    }
  }

  /**
   * A sender past its last wait has a receiver that accepted every item; and the receiver knows that it is done
   * exactly if there was a chunk.
   */
  lemma CompletionIsSound(p: Plan, sys: Sys)
    requires Reachable(p, sys) && sys.s.phase == Closed
    ensures p.items <= sys.r.accepted
    ensures sys.r.done <==> HasChunks(p)
  {
    ReachableInv(p, sys);
    assert p.items[..|p.items|] == p.items;
  }

  /** The plan of an upload: filename, size and chunks, of which an empty file has none. */
  ghost predicate UploadPlan(p: Plan, name: Bytes, source: Bytes) {
    && p.direction == Upload && PlanOk(p) && |source| < MAX_UINT
    && p.items == [name, UInt(|source|)] + Split(source, FILE_CHUNK_SIZE_SAW)
  }

  ghost predicate DownloadPlan(p: Plan, source: Bytes) {
    p.direction == Download && PlanOk(p) && p.items == Split(source, FILE_CHUNK_SIZE_SAW)
  }

  lemma ChunksOfUpload(p: Plan, name: Bytes, source: Bytes)
    requires UploadPlan(p, name, source)
    ensures HasChunks(p) <==> source != []
  {
    SplitIsLossless(source, FILE_CHUNK_SIZE_SAW);
  }

  /** The receiver's file: in an upload the first two items are the name and the size. */
  function FileOf(p: Plan, r: Receiver): Bytes {
    if p.direction == Download then Flatten(r.accepted)
    else if |r.accepted| < 2 then [] else Flatten(r.accepted[2..])
  }

  /** The size the server of an upload has recorded, if any. */
  function SizeOf(r: Receiver): Option<nat> {
    if |r.accepted| < 2 then None else Some(FromBytes(r.accepted[1]))
  }

  /** The items before some place, and an empty packet or nothing after them, flatten to whole chunks. */
  lemma FileOfItems(p: Plan, name: Bytes, source: Bytes, r: Receiver, k: nat)
    requires UploadPlan(p, name, source) && k <= |p.items|
    requires r.accepted == p.items[..k] || (k >= 1 && r.accepted == p.items[..k] + [[]])
    ensures FileOf(p, r) == if k < 2 then [] else Flatten(Split(source, FILE_CHUNK_SIZE_SAW)[..k - 2])
    ensures FileOf(p, r) <= source && (k == |p.items| ==> FileOf(p, r) == source)
  {
    var chunks := Split(source, FILE_CHUNK_SIZE_SAW);
    SplitIsLossless(source, FILE_CHUNK_SIZE_SAW);
    if k >= 2 {
      assert p.items[..k][2..] == chunks[..k - 2];
      FlattenPrefix(chunks, k - 2);
      FlattenSnoc(chunks[..k - 2], []);
      assert r.accepted != p.items[..k] ==> r.accepted[2..] == chunks[..k - 2] + [[]];
      assert k == |p.items| ==> chunks[..k - 2] == chunks;
    }
  }

  /**
   * Stop-and-wait upload: the server's file is at all times a prefix of the client's, made of whole chunks, and the
   * name it works with is the one sent. When the client reports completion the file is whole, and the server has
   * noticed exactly if it is not empty. As long as the client has not given up, the recorded size is the one sent, and
   * a server that has finished has the whole file.
   */
  lemma SawUploadSafety(p: Plan, name: Bytes, source: Bytes, sys: Sys)
    requires UploadPlan(p, name, source) && Reachable(p, sys)
    ensures FileOf(p, sys.r) <= source
    ensures sys.r.accepted != [] ==> sys.r.accepted[0] == name
    ensures sys.s.phase == Closed ==> FileOf(p, sys.r) == source && (sys.r.done <==> source != [])
    ensures sys.s.phase != GaveUp && sys.r.done ==> FileOf(p, sys.r) == source
    ensures SizeOf(sys.r).Some? ==>
              || SizeOf(sys.r) == Some(|source|)
              || (sys.s.phase == GaveUp && sys.r.accepted == [name, []])
  {
    OneBitSuffices(p, sys);
    if sys.s.phase == Closed { CompletionIsSound(p, sys); }
    ChunksOfUpload(p, name, source);
    UIntRoundTrip(|source|);
    var k := |sys.r.accepted|;
    if k <= |p.items| && sys.r.accepted == p.items[..k] {
      FileOfItems(p, name, source, sys.r, k);
    } else {
      FileOfItems(p, name, source, sys.r, sys.s.item + 1);
    }
    assert p.items[..|p.items|] == p.items;
  }

  /** Stop-and-wait download, whether or not the client gives up on the way. */
  lemma SawDownloadSafety(p: Plan, source: Bytes, sys: Sys)
    requires DownloadPlan(p, source) && Reachable(p, sys)
    ensures FileOf(p, sys.r) <= source
    ensures sys.r.done ==> FileOf(p, sys.r) == source
    ensures sys.s.phase == Closed ==> sys.r.done
  {
    ReachableInv(p, sys);
    if sys.s.phase == Closed { CompletionIsSound(p, sys); }
    SplitIsLossless(source, FILE_CHUNK_SIZE_SAW);
    FlattenPrefix(p.items, |sys.r.accepted|);
    assert p.items[..|p.items|] == p.items;
  }
}
