/** Cutting `total` bytes into chunks of `c`: every chunk of a file but the last is full. */
module ChunkMath {
  import opened Bytes

  function Max(a: int, b: int): int {
    if a < b then b else a
  }

  function Min(a: int, b: int): int {
    if a < b then a else b
  }

  function ChunkCount(total: nat, c: nat): nat
    requires c > 0
  {
    (total + c - 1) / c
  }

  /** Last byte of chunk `i`, as downloads compute it. */
  function ChunkLast(i: nat, total: nat, c: nat): int {
    if i * c + c - 1 < total - 1 then i * c + c - 1 else total - 1
  }

  function ChunkLen(i: nat, total: nat, c: nat): int {
    ChunkLast(i, total, c) - i * c + 1
  }

  lemma Distribute(i: nat, c: nat)
    ensures (i + 1) * c == i * c + c
  {
  }

  lemma Product(i: nat, j: nat, c: nat)
    requires i < j
    ensures i * c + c <= j * c
  {
    var d: nat := j - i - 1;
    assert j * c == (i + 1 + d) * c == i * c + c + d * c;
  }

  /** Chunk `i` exists exactly when its first byte does. */
  lemma InRange(i: nat, total: nat, c: nat)
    requires c > 0
    ensures i < ChunkCount(total, c) <==> i * c < total
  {
    var n := ChunkCount(total, c);
    assert total + c - 1 == n * c + (total + c - 1) % c;
    if i < n {
      Product(i, n, c);
    } else if n < i {
      Product(n, i, c);
    }
  }

  /** The chunk of byte `p`. */
  lemma ChunkOfByte(p: nat, i: nat, c: nat)
    requires c > 0
    ensures p / c == i <==> i * c <= p < i * c + c
  {
    var q := p / c;
    assert p == q * c + p % c;
    if q < i {
      Product(q, i, c);
    } else if i < q {
      Product(i, q, c);
    }
  }

  /** The chunk that starts at `o`. */
  function PieceAt(content: Bytes, o: nat, c: nat): Bytes
    requires o < |content|
  {
    content[o..Min(o + c, |content|)]
  }

  /** Chunk `i`. */
  function Piece(content: Bytes, i: nat, c: nat): Bytes
    requires i * c < |content|
  {
    PieceAt(content, i * c, c)
  }

  lemma PieceIsSlice(content: Bytes, i: nat, c: nat)
    requires c > 0 && i * c < |content|
    ensures 0 <= i * c <= ChunkLast(i, |content|, c) < |content|
    ensures Piece(content, i, c) == content[i * c..ChunkLast(i, |content|, c) + 1]
    ensures |Piece(content, i, c)| == ChunkLen(i, |content|, c) > 0
  {
  }
}
