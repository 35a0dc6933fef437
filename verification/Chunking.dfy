/** How a file is cut into chunks before it is sent, and why nothing is lost by it. */
module Chunking {

  type byte = b: int | 0 <= b < 256

  type Bytes = seq<byte>

  const HISTORICAL_MTU: nat := 1500
  const MAX_IP_HEADER_SIZE: nat := 60
  const UDP_HEADER_SIZE: nat := 8
  const SAW_PROTOCOL_HEADER_SIZE: nat := 6
  const GBN_PROTOCOL_HEADER_SIZE: nat := 16

  const FILE_CHUNK_SIZE_SAW: nat :=
    HISTORICAL_MTU - MAX_IP_HEADER_SIZE - UDP_HEADER_SIZE - SAW_PROTOCOL_HEADER_SIZE

  const FILE_CHUNK_SIZE_GBN: nat :=
    HISTORICAL_MTU - MAX_IP_HEADER_SIZE - UDP_HEADER_SIZE - GBN_PROTOCOL_HEADER_SIZE

  /** The concatenation of a list of chunks. */
  function Flatten(chunks: seq<Bytes>): Bytes {
    if chunks == [] then [] else chunks[0] + Flatten(chunks[1..])
  }

  /** The chunks of `content`, each of `size` bytes except possibly the last. */
  function Split(content: Bytes, size: nat): seq<Bytes>
    requires size > 0
  {
    if content == [] then []
    else if |content| <= size then [content]
    else [content[..size]] + Split(content[size..], size)
  }

  /** `ceil(file_size / chunk_size)` */
  function NumberOfChunks(fileSize: nat, chunkSize: nat): nat
    requires chunkSize > 0
  {
    if fileSize % chunkSize == 0 then fileSize / chunkSize else fileSize / chunkSize + 1
  }

  function Min(a: int, b: int): int { if a <= b then a else b }

  /** An open file and its cursor. */
  class FileCursor {
    const content: Bytes
    var pos: nat

    ghost predicate Valid()
      reads this
    {
      pos <= |content|
    }

    constructor (content: Bytes)
      ensures Valid() && pos == 0 && this.content == content
    {
      this.content := content;
      pos := 0;
    }

    /** Reads at most `n` bytes; an empty answer means end of file. */
    method Read(n: nat) returns (chunk: Bytes)
      requires Valid()
      modifies this
      ensures Valid() && pos == old(pos) + |chunk|
      ensures chunk == content[old(pos)..pos]
      ensures |chunk| == Min(n, |content| - old(pos))
    {
      var end := Min(pos + n, |content|);
      chunk := content[pos..end];
      pos := end;
    }

    /** Moves back `n` bytes. Seeking before the start of the file is an I/O error and moves nothing. */
    method Unwind(n: nat) returns (ok: bool)
      requires Valid()
      modifies this
      ensures Valid() && ok == (n <= old(pos))
      ensures pos == if ok then old(pos) - n else old(pos)
    {
      ok := n <= pos;
      if ok {
        pos := pos - n;
      }
    }
  }

  /** The read loop of the client's sender: exactly the first `NumberOfChunks(filesize)` chunks left in the file. */
  method SplitFileInChunks(file: FileCursor, filesize: nat) returns (chunkList: seq<Bytes>)
    requires file.Valid()
    modifies file
    ensures file.Valid()
    ensures var all := Split(file.content[old(file.pos)..], FILE_CHUNK_SIZE_GBN);
            chunkList == all[..Min(|all|, NumberOfChunks(filesize, FILE_CHUNK_SIZE_GBN))]
  {
    var totalChunks := NumberOfChunks(filesize, FILE_CHUNK_SIZE_GBN);
    ghost var all := Split(file.content[file.pos..], FILE_CHUNK_SIZE_GBN);
    chunkList := [];
    for i := 0 to totalChunks
      invariant file.Valid()
      invariant all == chunkList + Split(file.content[file.pos..], FILE_CHUNK_SIZE_GBN)
      invariant |chunkList| == i || (|chunkList| < i && file.pos == |file.content|)
    {
      ghost var rest := file.content[file.pos..];
      var chunk := file.Read(FILE_CHUNK_SIZE_GBN);
      assert file.content[file.pos..] == rest[|chunk|..];
      assert chunk == rest[..|chunk|];
      if |chunk| > 0 {
        chunkList := chunkList + [chunk];
        assert |rest| <= FILE_CHUNK_SIZE_GBN ==> chunk == rest && rest[|chunk|..] == [];
      }
    }
    assert chunkList == all[..|chunkList|];
  }

  /** The read loop of the server's sender, which first takes back the chunk it has already sent by hand. */
  method UnwindAndSplitFileInChunks(file: FileCursor, filesize: nat) returns (ok: bool, chunkList: seq<Bytes>)
    requires file.Valid()
    modifies file
    ensures file.Valid()
    ensures ok == (Min(filesize, FILE_CHUNK_SIZE_GBN) <= old(file.pos))
    ensures ok ==>
              var all := Split(file.content[old(file.pos) - Min(filesize, FILE_CHUNK_SIZE_GBN)..], FILE_CHUNK_SIZE_GBN);
              chunkList == all[..Min(|all|, NumberOfChunks(filesize, FILE_CHUNK_SIZE_GBN))]
  {
    var amountToUnwind := if filesize < FILE_CHUNK_SIZE_GBN then filesize else FILE_CHUNK_SIZE_GBN;
    chunkList := [];
    ok := file.Unwind(amountToUnwind);
    if ok {
      chunkList := SplitFileInChunks(file, filesize);
    }
  }

  /** Chunking as the download does it: one hand-read chunk, then the rewinding loop. The list is the whole file's. */
  method FirstReadThenSplit(content: Bytes) returns (first: Bytes, chunkList: seq<Bytes>)
    ensures chunkList == Split(content, FILE_CHUNK_SIZE_GBN)
    ensures Flatten(chunkList) == content
    ensures content != [] ==> chunkList != [] && first == chunkList[0]
  {
    var file := new FileCursor(content);
    first := file.Read(FILE_CHUNK_SIZE_GBN);
    var ok;
    ok, chunkList := UnwindAndSplitFileInChunks(file, |content|);
    assert content[0..] == content;
    SplitIsLossless(content, FILE_CHUNK_SIZE_GBN);
  }

  lemma {:induction false} NumberOfChunksStep(n: nat, size: nat)
    requires n >= size > 0
    ensures NumberOfChunks(n, size) == NumberOfChunks(n - size, size) + 1
  {
    var q, r := n / size, n % size;
    assert n == q * size + r;
    assert n - size == (q - 1) * size + r;
    QuotientUnique(n - size, size, q - 1, r);
  }

  lemma QuotientUnique(n: int, size: nat, q: int, r: nat)
    requires 0 <= r < size && n == q * size + r
    ensures n / size == q && n % size == r
  {
    var q', r' := n / size, n % size;
    assert n == q' * size + r';
    assert (q - q') * size == r' - r;
    assert q - q' >= 1 ==> (q - q') * size >= size;
    assert q - q' <= -1 ==> (q - q') * size <= 0 - size;
  }

  /** Chunking is lossless: the right number of chunks, all full but the last, none empty, adding up to the file. */
  lemma {:induction false} SplitIsLossless(content: Bytes, size: nat)
    requires size > 0
    ensures var chunks := Split(content, size);
            && Flatten(chunks) == content
            && |chunks| == NumberOfChunks(|content|, size)
            && (forall i :: 0 <= i < |chunks| - 1 ==> |chunks[i]| == size)
            && (forall i :: 0 <= i < |chunks| ==> 0 < |chunks[i]| <= size)
    decreases |content|
  {
    if content == [] {
    } else if |content| <= size {
      assert [content][1..] == [];
      if |content| == size {
        QuotientUnique(|content|, size, 1, 0);
      } else {
        QuotientUnique(|content|, size, 0, |content|);
      }
    } else {
      var rest := content[size..];
      SplitIsLossless(rest, size);
      NumberOfChunksStep(|content|, size);
      var chunks := Split(content, size);
      assert chunks[1..] == Split(rest, size);
      assert content == content[..size] + rest;
    }
  }

  /** `Flatten` of one more chunk is one more append. */
  lemma {:induction false} FlattenSnoc(chunks: seq<Bytes>, last: Bytes)
    ensures Flatten(chunks + [last]) == Flatten(chunks) + last
  {
    if chunks == [] {
      assert [last][1..] == [];
    } else {
      assert (chunks + [last])[1..] == chunks[1..] + [last];
      FlattenSnoc(chunks[1..], last);
    }
  }

  lemma FlattenStep(chunks: seq<Bytes>, k: nat)
    requires k < |chunks|
    ensures Flatten(chunks[..k + 1]) == Flatten(chunks[..k]) + chunks[k]
  {
    assert chunks[..k + 1] == chunks[..k] + [chunks[k]];
    FlattenSnoc(chunks[..k], chunks[k]);
  }

  /** A shorter list of chunks holds a prefix of the bytes, and a strictly shorter prefix when chunks are non-empty. */
  lemma {:induction false} FlattenPrefix(chunks: seq<Bytes>, k: nat)
    requires k <= |chunks|
    ensures Flatten(chunks[..k]) <= Flatten(chunks)
    ensures k < |chunks| && chunks[|chunks| - 1] != [] ==> |Flatten(chunks[..k])| < |Flatten(chunks)|
    decreases |chunks| - k
  {
    if k == |chunks| {
      assert chunks[..k] == chunks;
    } else {
      FlattenPrefix(chunks, k + 1);
      FlattenStep(chunks, k);
      assert k + 1 == |chunks| ==> chunks[..k + 1] == chunks;
    }
  }

  /** A file that fits the 4-byte size field has few enough chunks. */
  lemma ChunkCountOfUpload(content: Bytes)
    requires |content| < 0x1_0000_0000
    ensures |Split(content, FILE_CHUNK_SIZE_GBN)| <= 3_033_170
  {
    SplitIsLossless(content, FILE_CHUNK_SIZE_GBN);
  }
}
