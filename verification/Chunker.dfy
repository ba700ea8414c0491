/** Cutting data into chunks and putting it back together. */
module Chunker {
  import opened Bytes
  import opened ChunkMath
  import opened Schema

  datatype ChunkWithHash = ChunkWithHash(index: nat, sha: Sha, size: nat, data: Bytes)

  function ChunkData(data: Bytes, c: nat): seq<Bytes>
    requires c > 0
  {
    if data == [] then []
    else if |data| <= c then [data]
    else [data[..c]] + ChunkData(data[c..], c)
  }

  function ChunkWithHashes(data: Bytes, c: nat, hash: Bytes -> Sha): seq<ChunkWithHash>
    requires c > 0
  {
    var pieces := ChunkData(data, c);
    seq(|pieces|, i requires 0 <= i < |pieces| => ChunkWithHash(i, hash(pieces[i]), |pieces[i]|, pieces[i]))
  }

  function Concat(chunks: seq<Bytes>): Bytes {
    if chunks == [] then [] else Concat(chunks[..|chunks| - 1]) + chunks[|chunks| - 1]
  }

  lemma {:induction false} ConcatCons(first: Bytes, rest: seq<Bytes>)
    ensures Concat([first] + rest) == first + Concat(rest)
  {
    var all := [first] + rest;
    if rest == [] {
      assert all[..0] == [];
    } else {
      ConcatCons(first, rest[..|rest| - 1]);
      assert all[..|all| - 1] == [first] + rest[..|rest| - 1];
    }
  }

  method AssembleChunks(chunks: seq<Bytes>) returns (data: Bytes)
    ensures data == Concat(chunks)
  {
    data := [];
    for i := 0 to |chunks|
      invariant data == Concat(chunks[..i])
    {
      assert chunks[..i + 1][..i] == chunks[..i];
      data := data + chunks[i];
    }
    assert chunks[..|chunks|] == chunks;
  }

  lemma {:induction false} AssembleInvertsChunking(data: Bytes, c: nat)
    requires c > 0
    ensures Concat(ChunkData(data, c)) == data
  {
    if data == [] {
    } else if |data| <= c {
      ConcatCons(data, []);
      assert [data] + [] == [data];
    } else {
      AssembleInvertsChunking(data[c..], c);
      ConcatCons(data[..c], ChunkData(data[c..], c));
    }
  }

  /** There are as many chunks as sessions count, and chunk `i` is the slice sessions download. */
  lemma {:induction false} ChunksAreSlices(data: Bytes, c: nat)
    requires c > 0
    ensures |ChunkData(data, c)| == ChunkCount(|data|, c)
    ensures forall i :: 0 <= i < ChunkCount(|data|, c) ==> i * c < |data| && ChunkData(data, c)[i] == Piece(data, i, c)
  {
    var n := ChunkCount(|data|, c);
    if data == [] {
      InRange(0, 0, c);
    } else if |data| <= c {
      InRange(0, |data|, c);
      InRange(1, |data|, c);
      assert n == 1;
    } else {
      var rest := data[c..];
      ChunksAreSlices(rest, c);
      CountShift(|rest|, c);
      forall i | 0 <= i < n ensures i * c < |data| && ChunkData(data, c)[i] == Piece(data, i, c) {
        InRange(i, |data|, c);
        if i > 0 {
          assert ChunkData(data, c)[i] == ChunkData(rest, c)[i - 1] == Piece(rest, i - 1, c);
          ShiftedPiece(data, i, c);
        } else {
          FirstPiece(data, c);
        }
      }
    }
  }

  lemma FirstPiece(data: Bytes, c: nat)
    requires 0 < c < |data|
    ensures Piece(data, 0, c) == data[..c]
  {
  }

  lemma ShiftedPiece(data: Bytes, i: nat, c: nat)
    requires 0 < c < |data| && i > 0 && i * c < |data|
    ensures (i - 1) * c < |data[c..]| && Piece(data[c..], i - 1, c) == Piece(data, i, c)
  {
    Distribute(i - 1, c);
    ShiftedAt(data, (i - 1) * c, c);
  }

  lemma ShiftedAt(data: Bytes, o: nat, c: nat)
    requires o + c < |data|
    ensures PieceAt(data[c..], o, c) == PieceAt(data, o + c, c)
  {
  }

  lemma CountShift(total: nat, c: nat)
    requires c > 0
    ensures ChunkCount(total + c, c) == ChunkCount(total, c) + 1
  {
    var m := ChunkCount(total, c);
    InRange(m, total, c);
    Distribute(m, c);
    InRange(m + 1, total + c, c);
    if m > 0 {
      InRange(m - 1, total, c);
      Distribute(m - 1, c);
    }
    InRange(m, total + c, c);
  }

  /** Hashed chunks carry their position, length and hash, and assemble to the data. */
  lemma HashedChunksRoundTrip(data: Bytes, c: nat, hash: Bytes -> Sha)
    requires c > 0
    ensures var hashed := ChunkWithHashes(data, c, hash);
      && Concat(seq(|hashed|, i requires 0 <= i < |hashed| => hashed[i].data)) == data
      && (forall i :: 0 <= i < |hashed| ==> i * c < |data|)
      && (forall i :: 0 <= i < |hashed| ==>
            hashed[i] == ChunkWithHash(i, hash(Piece(data, i, c)), ChunkLen(i, |data|, c), Piece(data, i, c)))
  {
    var hashed := ChunkWithHashes(data, c, hash);
    AssembleInvertsChunking(data, c);
    ChunksAreSlices(data, c);
    assert seq(|hashed|, i requires 0 <= i < |hashed| => hashed[i].data) == ChunkData(data, c);
    forall i | 0 <= i < |hashed| ensures |Piece(data, i, c)| == ChunkLen(i, |data|, c) {
      PieceIsSlice(data, i, c);
    }
  }
}
