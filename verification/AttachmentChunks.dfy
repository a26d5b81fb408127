/** Cutting an attachment into chunks and putting it together again. */
module AttachmentChunks {

  type Bytes = seq<bv8>

  // ---------------------------------------------------------------- chunk arithmetic

  /** How many chunks of `chunkSize` bytes cover `byteSize` bytes. */
  function TotalChunks(byteSize: nat, chunkSize: nat): nat
    requires chunkSize > 0
  {
    (byteSize + chunkSize - 1) / chunkSize
  }

  function Offset(chunkSize: nat, ordinal: nat): nat {
    ordinal * chunkSize
  }

  /** The size a chunk must have: a full one, or what is left for the last. */
  function ExpectedSize(byteSize: nat, chunkSize: nat, ordinal: nat): int {
    if chunkSize < byteSize - Offset(chunkSize, ordinal) then chunkSize else byteSize - Offset(chunkSize, ordinal)
  }

  lemma OffsetNext(chunkSize: nat, ordinal: nat)
    ensures Offset(chunkSize, ordinal + 1) == Offset(chunkSize, ordinal) + chunkSize
  {}

  lemma OffsetOrder(chunkSize: nat, a: nat, b: nat)
    requires a <= b
    ensures Offset(chunkSize, a) <= Offset(chunkSize, b)
  {
    assert Offset(chunkSize, b) == Offset(chunkSize, a) + (b - a) * chunkSize;
  }

  lemma CountBounds(byteSize: nat, chunkSize: nat)
    requires chunkSize > 0
    ensures var n := TotalChunks(byteSize, chunkSize);
            && byteSize <= Offset(chunkSize, n) < byteSize + chunkSize
  {
    var n := TotalChunks(byteSize, chunkSize);
    var r := (byteSize + chunkSize - 1) % chunkSize;
    assert byteSize + chunkSize - 1 == n * chunkSize + r;
  }

  /** The chunks tile the bytes: none is empty, each starts where the one before ends, and the last ends at
      the end. */
  lemma ChunksTile(byteSize: nat, chunkSize: nat, ordinal: nat)
    requires chunkSize > 0 && ordinal < TotalChunks(byteSize, chunkSize)
    ensures var n := TotalChunks(byteSize, chunkSize);
            var end := Offset(chunkSize, ordinal) + ExpectedSize(byteSize, chunkSize, ordinal);
            && 0 < ExpectedSize(byteSize, chunkSize, ordinal) <= chunkSize
            && end == if ordinal + 1 < n then Offset(chunkSize, ordinal + 1) else byteSize
  {
    hide TotalChunks, Offset;
    var n := TotalChunks(byteSize, chunkSize);
    CountBounds(byteSize, chunkSize);
    OffsetNext(chunkSize, ordinal);
    OffsetOrder(chunkSize, ordinal + 1, n);
    if ordinal + 1 < n {
      OffsetNext(chunkSize, n - 1);
      OffsetOrder(chunkSize, ordinal + 1, n - 1);
    }
  }

  predicate InChunk(byteSize: nat, chunkSize: nat, ordinal: nat, b: nat) {
    Offset(chunkSize, ordinal) <= b < Offset(chunkSize, ordinal) + ExpectedSize(byteSize, chunkSize, ordinal)
  }

  /** Every byte lies in exactly one chunk. */
  lemma EveryByteInOneChunk(byteSize: nat, chunkSize: nat, b: nat)
    requires chunkSize > 0 && b < byteSize
    ensures var k := b / chunkSize;
            && k < TotalChunks(byteSize, chunkSize) && InChunk(byteSize, chunkSize, k, b)
            && forall j: nat :: j < TotalChunks(byteSize, chunkSize) && InChunk(byteSize, chunkSize, j, b) ==> j == k
  {
    var k, n := b / chunkSize, TotalChunks(byteSize, chunkSize);
    assert b == k * chunkSize + b % chunkSize;
    CountBounds(byteSize, chunkSize);
    OffsetNext(chunkSize, k);
    hide TotalChunks;
    if n <= k { OffsetOrder(chunkSize, n, k); }
    forall j: nat | j < n && InChunk(byteSize, chunkSize, j, b) ensures j == k {
      OffsetNext(chunkSize, j);
      if j < k { OffsetOrder(chunkSize, j + 1, k); }
      if k < j { OffsetOrder(chunkSize, k + 1, j); }
    }
  }

  // ---------------------------------------------------------------- what was received

  /** The bytes of the received chunks among the first n. */
  function StoredBytes(byteSize: nat, chunkSize: nat, received: set<nat>, n: nat): int {
    if n == 0 then 0
    else
      StoredBytes(byteSize, chunkSize, received, n - 1)
      + if n - 1 in received then ExpectedSize(byteSize, chunkSize, n - 1) else 0
  }

  /** The ordinals that are still missing, in order. */
  function MissingBelow(received: set<nat>, n: nat): (missing: seq<nat>)
    ensures forall k: nat :: k in missing <==> k < n && k !in received
  {
    if n == 0 then []
    else MissingBelow(received, n - 1) + if n - 1 in received then [] else [n - 1]
  }

  lemma {:induction false} StoreOne(byteSize: nat, chunkSize: nat, received: set<nat>, ordinal: nat, n: nat)
    requires ordinal !in received
    ensures StoredBytes(byteSize, chunkSize, received + {ordinal}, n)
         == StoredBytes(byteSize, chunkSize, received, n)
             + if ordinal < n then ExpectedSize(byteSize, chunkSize, ordinal) else 0
  {
    if n > 0 { StoreOne(byteSize, chunkSize, received, ordinal, n - 1); }
  }

  /** What is stored never exceeds the bytes covered, and equals them exactly when nothing is missing. */
  lemma {:induction false} StoredExactly(byteSize: nat, chunkSize: nat, received: set<nat>, n: nat)
    requires chunkSize > 0 && n <= TotalChunks(byteSize, chunkSize)
    ensures var covered := if n < TotalChunks(byteSize, chunkSize) then Offset(chunkSize, n) else byteSize;
            && 0 <= StoredBytes(byteSize, chunkSize, received, n) <= covered
            && (StoredBytes(byteSize, chunkSize, received, n) == covered <==> MissingBelow(received, n) == [])
  {
    if n == 0 {
      if TotalChunks(byteSize, chunkSize) == 0 { CountBounds(byteSize, chunkSize); }
    } else {
      hide TotalChunks, Offset, ExpectedSize;
      StoredExactly(byteSize, chunkSize, received, n - 1);
      ChunksTile(byteSize, chunkSize, n - 1);
    }
  }

  /** A session has all its bytes exactly when no ordinal is missing. */
  lemma CompleteExactly(byteSize: nat, chunkSize: nat, received: set<nat>)
    requires chunkSize > 0
    ensures var n := TotalChunks(byteSize, chunkSize);
            && 0 <= StoredBytes(byteSize, chunkSize, received, n) <= byteSize
            && (StoredBytes(byteSize, chunkSize, received, n) == byteSize <==> MissingBelow(received, n) == [])
  {
    StoredExactly(byteSize, chunkSize, received, TotalChunks(byteSize, chunkSize));
  }

  // ---------------------------------------------------------------- putting it together

  /** The stored chunks one after the other, by ordinal. */
  function Concatenated(parts: map<nat, Bytes>, n: nat): Bytes {
    if n == 0 then []
    else Concatenated(parts, n - 1) + if n - 1 in parts then parts[n - 1] else []
  }

  /** Chunk `ordinal` of the content. */
  function Piece(content: Bytes, chunkSize: nat, ordinal: nat): Bytes
    requires chunkSize > 0 && ordinal < TotalChunks(|content|, chunkSize)
  {
    ChunksTile(|content|, chunkSize, ordinal);
    OffsetOrder(chunkSize, 0, ordinal);
    content[Offset(chunkSize, ordinal)..Offset(chunkSize, ordinal) + ExpectedSize(|content|, chunkSize, ordinal)]
  }

  /** Where chunk n starts, or the end behind the last. */
  function Boundary(byteSize: nat, chunkSize: nat, n: nat): nat
    requires chunkSize > 0
  {
    if n < TotalChunks(byteSize, chunkSize) then Offset(chunkSize, n) else byteSize
  }

  lemma PieceBetween(content: Bytes, chunkSize: nat, ordinal: nat)
    requires chunkSize > 0 && ordinal < TotalChunks(|content|, chunkSize)
    ensures var from, to := Boundary(|content|, chunkSize, ordinal), Boundary(|content|, chunkSize, ordinal + 1);
            from < to <= |content| && Piece(content, chunkSize, ordinal) == content[from..to]
  {
    hide TotalChunks, Offset;
    ChunksTile(|content|, chunkSize, ordinal);
  }

  lemma FirstBoundary(byteSize: nat, chunkSize: nat)
    requires chunkSize > 0
    ensures Boundary(byteSize, chunkSize, 0) == 0
  {
    if TotalChunks(byteSize, chunkSize) == 0 { CountBounds(byteSize, chunkSize); }
  }

  lemma {:induction false} PiecesConcatenate(content: Bytes, chunkSize: nat, parts: map<nat, Bytes>, n: nat)
    requires chunkSize > 0 && n <= TotalChunks(|content|, chunkSize)
    requires forall k: nat :: k < n ==> k in parts && parts[k] == Piece(content, chunkSize, k)
    ensures Boundary(|content|, chunkSize, n) <= |content|
    ensures Concatenated(parts, n) == content[..Boundary(|content|, chunkSize, n)]
  {
    hide Piece, Boundary, TotalChunks;
    if n == 0 {
      FirstBoundary(|content|, chunkSize);
    } else {
      PiecesConcatenate(content, chunkSize, parts, n - 1);
      PieceBetween(content, chunkSize, n - 1);
    }
  }

  /** The pieces of a content put together are the content. */
  lemma AssemblyRestores(content: Bytes, chunkSize: nat, parts: map<nat, Bytes>)
    requires chunkSize > 0
    requires forall k: nat :: k < TotalChunks(|content|, chunkSize) ==>
               k in parts && parts[k] == Piece(content, chunkSize, k)
    ensures Concatenated(parts, TotalChunks(|content|, chunkSize)) == content
  {
    PiecesConcatenate(content, chunkSize, parts, TotalChunks(|content|, chunkSize));
  }
}
