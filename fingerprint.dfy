/**
 * The local fingerprint: a file is read in fixed-size chunks and every chunk is fed to an
 * MD5 hasher. MD5 itself stays opaque: it is the function `md5` from bytes to its hex digest,
 * and the hasher's state is the sequence of bytes it has absorbed so far.
 */
module Fingerprint {
  import opened Base

  /** Read size of the chunk loop: 8 << 20 bytes. */
  const ReadSize: nat := 8 * 1024 * 1024

  /** Concatenation of a sequence of chunks. */
  function Flatten(chunks: seq<Bytes>): Bytes {
    if chunks == [] then [] else chunks[0] + Flatten(chunks[1..])
  }

  /** The chunks successive reads of size `n` return, up to (excluding) the empty read at end of file. */
  function Chunks(data: Bytes, n: nat): seq<Bytes>
    requires n > 0
    decreases |data|
  {
    if data == [] then []
    else if |data| <= n then [data]
    else [data[..n]] + Chunks(data[n..], n)
  }

  /** Reading in chunks loses and reorders nothing: the chunks put back together are the file. */
  lemma {:induction false} ChunksCoverData(data: Bytes, n: nat)
    requires n > 0
    ensures Flatten(Chunks(data, n)) == data
    decreases |data|
  {
    if data != [] && |data| > n {
      ChunksCoverData(data[n..], n);
      assert Chunks(data, n)[1..] == Chunks(data[n..], n);
      assert data == data[..n] + data[n..];
    }
  }

  /** Every chunk is non-empty and at most `n` bytes long; all but the last are exactly `n` long. */
  lemma {:induction false} ChunksSized(data: Bytes, n: nat)
    requires n > 0
    ensures forall k :: 0 <= k < |Chunks(data, n)| ==>
      0 < |Chunks(data, n)[k]| <= n && (k < |Chunks(data, n)| - 1 ==> |Chunks(data, n)[k]| == n)
    decreases |data|
  {
    if data != [] && |data| > n {
      ChunksSized(data[n..], n);
      assert Chunks(data, n)[1..] == Chunks(data[n..], n);
    }
  }

  /** One read of at most `n` bytes from offset `pos`; empty exactly at end of file. */
  function Read(data: Bytes, pos: nat, n: nat): (chunk: Bytes)
    requires pos <= |data|
    ensures pos + |chunk| <= |data| && |chunk| <= n
    ensures chunk == [] <==> (pos == |data| || n == 0)
    ensures data[..pos] + chunk == data[..pos + |chunk|]
  {
    if pos + n <= |data| then data[pos..pos + n] else data[pos..]
  }

  /** The chunks from offset `pos` on are the chunk read there followed by the chunks after it. */
  lemma ReadThenChunks(data: Bytes, pos: nat, n: nat)
    requires pos < |data| && n > 0
    ensures Chunks(data[pos..], n) == [Read(data, pos, n)] + Chunks(data[pos + |Read(data, pos, n)|..], n)
  {
    var rest := data[pos..];
    if |rest| > n {
      assert rest[..n] == Read(data, pos, n);
      assert rest[n..] == data[pos + n..];
    } else {
      assert rest == Read(data, pos, n);
      assert data[pos + |rest|..] == [];
    }
  }

  /** Feeding the chunk read at `pos` moves it from the chunks still to come to the chunks fed. */
  lemma FeedChunk(data: Bytes, pos: nat, n: nat, fed: seq<Bytes>)
    requires pos < |data| && n > 0
    requires fed + Chunks(data[pos..], n) == Chunks(data, n)
    ensures (fed + [Read(data, pos, n)]) + Chunks(data[pos + |Read(data, pos, n)|..], n) == Chunks(data, n)
  {
    ReadThenChunks(data, pos, n);
    var rest := Chunks(data[pos + |Read(data, pos, n)|..], n);
    assert (fed + [Read(data, pos, n)]) + rest == fed + ([Read(data, pos, n)] + rest);
  }

  /**
   * The chunk loop of the fingerprint: read `chunkSize` bytes at a time until a read returns
   * nothing, feeding each chunk to the hasher. Returns the hex digest and (as ghost) the
   * chunks in the order they were fed.
   */
  method HashChunks(md5: Bytes -> string, data: Bytes, chunkSize: nat) returns (hex: string, ghost fed: seq<Bytes>)
    requires chunkSize > 0
    ensures hex == md5(data)
    ensures fed == Chunks(data, chunkSize)
  {
    var absorbed: Bytes := [];
    var pos: nat := 0;
    fed := [];
    var chunk := Read(data, pos, chunkSize);
    while chunk != []
      invariant pos <= |data|
      invariant absorbed == data[..pos]
      invariant chunk == Read(data, pos, chunkSize)
      invariant fed + Chunks(data[pos..], chunkSize) == Chunks(data, chunkSize)
      decreases |data| - pos
    {
      FeedChunk(data, pos, chunkSize, fed);
      absorbed := absorbed + chunk;
      fed := fed + [chunk];
      pos := pos + |chunk|;
      chunk := Read(data, pos, chunkSize);
    }
    assert pos == |data|;
    assert absorbed == data;
    hex := md5(absorbed);
  }

  /** The MD5 hex digest of a local file, read in chunks of `ReadSize`. The caller has checked that it exists. */
  method Md5Of(md5: Bytes -> string, local: LocalFs, path: Path) returns (hex: string)
    requires path in local
    ensures hex == md5(local[path])
  {
    ghost var fed;
    hex, fed := HashChunks(md5, local[path], ReadSize);
  }
}
