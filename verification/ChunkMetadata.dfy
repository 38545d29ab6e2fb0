/** The chunk tables and block indices that vllm/v1/attention/backends/mamba_attn.py
    hands to the scan: chunks end where blocks end, so the tables are what the
    kernel needs. */
module ChunkMetadata {

  import Division
  import opened ScanKernel
  import opened PrefixCache
  import opened ScanGrid

  function Min(x: int, y: int): int {
    if x <= y then x else y
  }

  function Max(x: int, y: int): int {
    if x <= y then y else x
  }

  function CeilDiv(n: nat, d: nat): nat
    requires d > 0
  {
    (n + d - 1) / d
  }

  lemma CeilDivIff(n: nat, d: nat, k: nat)
    requires d > 0
    ensures k < CeilDiv(n, d) <==> k * d < n
  {
    var q := CeilDiv(n, d);
    Division.Bounds(n + d - 1, d);
    if k < q {
      Division.Scaled(k + 1, q, d);
      assert (k + 1) * d == k * d + d;
    } else {
      Division.Scaled(q, k, d);
    }
  }

  /** The least multiple that covers `n`. */
  lemma CeilDivIs(n: nat, d: nat, m: nat)
    requires d > 0 && n <= m * d && (m > 0 ==> (m - 1) * d < n)
    ensures CeilDiv(n, d) == m
  {
    CeilDivIff(n, d, m);
    if m > 0 {
      CeilDivIff(n, d, m - 1);
    }
  }

  lemma CeilDivNext(n: nat, d: nat)
    requires d > 0
    ensures CeilDiv(n + d, d) == CeilDiv(n, d) + 1
  {
    var m := CeilDiv(n, d);
    CeilDivIff(n, d, m);
    if m > 0 {
      CeilDivIff(n, d, m - 1);
      assert (m - 1) * d + d == m * d;
    }
    assert (m + 1) * d == m * d + d;
    CeilDivIs(n + d, d, m + 1);
  }

  // ----------------------------------------------------- the chunks of a request

  /** How many chunks a request gets that has `computed` tokens behind it and
      `added` ones scheduled: one for each block that these touch. */
  function Pieces(computed: nat, added: nat, size: nat): nat
    requires size > 0
  {
    CeilDiv(computed % size + added, size)
  }

  /** The position at which chunk `c` begins, and the one before it ends. */
  function Boundary(computed: nat, added: nat, size: nat, c: nat): int
    requires size > 0
  {
    if c == 0 then computed else Min((computed / size + c) * size, computed + added)
  }

  function ChunkLen(computed: nat, added: nat, size: nat, c: nat): nat
    requires size > 0
  {
    BoundaryGrows(computed, added, size, c);
    Boundary(computed, added, size, c + 1) - Boundary(computed, added, size, c)
  }

  function Split(computed: nat, added: nat, size: nat): (chunks: seq<nat>)
    requires size > 0
    ensures |chunks| == Pieces(computed, added, size)
  {
    seq(Pieces(computed, added, size), c requires 0 <= c => ChunkLen(computed, added, size, c))
  }

  lemma BlockStart(computed: nat, size: nat, c: nat)
    requires size > 0
    ensures (computed / size + c) * size == computed - computed % size + c * size
    ensures 0 <= computed % size < size
  {
    Division.Bounds(computed, size);
    assert (computed / size + c) * size == computed / size * size + c * size;
  }

  /** Chunk `c` exists exactly when its block begins before the last token. */
  lemma PiecesIff(computed: nat, added: nat, size: nat, c: nat)
    requires size > 0
    ensures c < Pieces(computed, added, size) <==> (computed / size + c) * size < computed + added
  {
    BlockStart(computed, size, c);
    CeilDivIff(computed % size + added, size, c);
  }

  lemma BoundaryGrows(computed: nat, added: nat, size: nat, c: nat)
    requires size > 0
    ensures computed <= Boundary(computed, added, size, c) <= Boundary(computed, added, size, c + 1) <= computed + added
  {
    BlockStart(computed, size, c);
    BlockStart(computed, size, c + 1);
    assert (c + 1) * size == c * size + size;
    if c > 0 {
      Division.AtLeastOnce(c, size);
    }
  }

  lemma LastBoundary(computed: nat, added: nat, size: nat)
    requires size > 0
    ensures Boundary(computed, added, size, Pieces(computed, added, size)) == computed + added
  {
    var n := Pieces(computed, added, size);
    PiecesIff(computed, added, size, n);
    BlockStart(computed, size, n);
  }

  /** All but the last chunk end at the end of a block. */
  lemma InnerBoundary(computed: nat, added: nat, size: nat, c: nat)
    requires size > 0 && 0 < c < Pieces(computed, added, size)
    ensures Boundary(computed, added, size, c) == (computed / size + c) * size < computed + added
  {
    PiecesIff(computed, added, size, c);
  }

  lemma {:induction false} SplitUpTo(computed: nat, added: nat, size: nat, c: nat)
    requires size > 0 && c <= Pieces(computed, added, size)
    ensures computed + Total(Split(computed, added, size)[..c]) == Boundary(computed, added, size, c)
  {
    if c > 0 {
      SplitUpTo(computed, added, size, c - 1);
      var chunks := Split(computed, added, size);
      assert chunks[..c][..c - 1] == chunks[..c - 1];
    }
  }

  /** The chunks of a request are its scheduled tokens. */
  lemma SplitTotal(computed: nat, added: nat, size: nat)
    requires size > 0
    ensures Total(Split(computed, added, size)) == added
  {
    var chunks := Split(computed, added, size);
    SplitUpTo(computed, added, size, |chunks|);
    LastBoundary(computed, added, size);
    assert chunks[..|chunks|] == chunks;
  }

  /** Inside the scheduled tokens a chunk ends at a position exactly when a block
      does: the state is there to be cached every `size` tokens, and nowhere else. */
  lemma CutsAreBlockEnds(computed: nat, added: nat, size: nat, x: nat)
    requires size > 0 && computed < x < computed + added
    ensures x % size == 0 <==>
            exists c :: 0 < c < |Split(computed, added, size)| && computed + Total(Split(computed, added, size)[..c]) == x
  {
    if x % size == 0 {
      var c := BlockEnd(computed, size, x);
      PiecesIff(computed, added, size, c);
      SplitUpTo(computed, added, size, c);
    }
    if c :| 0 < c < |Split(computed, added, size)| && computed + Total(Split(computed, added, size)[..c]) == x {
      SplitUpTo(computed, added, size, c);
      InnerBoundary(computed, added, size, c);
      Division.Quotient(computed / size + c, size, 0);
    }
  }

  lemma BlockEnd(computed: nat, size: nat, x: nat) returns (c: nat)
    requires size > 0 && computed < x && x % size == 0
    ensures c > 0 && x == (computed / size + c) * size
  {
    Division.Bounds(computed, size);
    Division.Bounds(x, size);
    if x / size <= computed / size {
      Division.Scaled(x / size, computed / size, size);
    }
    c := x / size - computed / size;
  }

  // ------------------------------------------------------------ cutting a request

  /** Where chunk `c` of a request begins in the batch, if the request is at `pos`. */
  function Cut(computed: nat, added: nat, size: nat, pos: nat, c: nat): nat
    requires size > 0
  {
    BoundaryGrows(computed, added, size, c);
    pos + Boundary(computed, added, size, c) - computed
  }

  function Cuts(computed: nat, added: nat, size: nat, pos: nat): (cuts: seq<nat>)
    requires size > 0
    ensures |cuts| == Pieces(computed, added, size)
  {
    seq(Pieces(computed, added, size), c requires 0 <= c => Cut(computed, added, size, pos, c))
  }

  /** A request that is not at a block boundary first fills up its block. */
  lemma FirstPiece(computed: nat, added: nat, size: nat)
    requires size > 0 && computed % size != 0
    ensures 0 <= CeilDiv(computed, size) * size - computed
    ensures Boundary(computed, added, size, 1) == computed + Min(CeilDiv(computed, size) * size - computed, added)
    ensures 0 < Pieces(computed, added, size)
  {
    BlockStart(computed, size, 0);
    BlockStart(computed, size, 1);
    CeilDivIs(computed, size, computed / size + 1);
    PiecesIff(computed, added, size, 0);
  }

  lemma NextPiece(computed: nat, added: nat, size: nat, c: nat)
    requires size > 0 && c < Pieces(computed, added, size) && (c == 0 ==> computed % size == 0)
    ensures Boundary(computed, added, size, c + 1) ==
            Boundary(computed, added, size, c) + Min(size, computed + added - Boundary(computed, added, size, c))
  {
    PiecesIff(computed, added, size, c);
    BlockStart(computed, size, c);
    BlockStart(computed, size, c + 1);
    assert (c + 1) * size == c * size + size;
  }

  /** What is left after the first chunk, if that filled up a block, makes up the
      other pieces. */
  lemma PiecesLeft(computed: nat, added: nat, size: nat, head: nat)
    requires size > 0 && head == (if computed % size == 0 then 0 else 1)
    ensures 0 <= computed + added - Boundary(computed, added, size, head)
    ensures head + CeilDiv(computed + added - Boundary(computed, added, size, head), size) == Pieces(computed, added, size)
  {
    BoundaryGrows(computed, added, size, head);
    BlockStart(computed, size, 1);
    if head == 1 {
      if computed % size + added <= size {
        CeilDivIs(0, size, 0);
        CeilDivIs(computed % size + added, size, 1);
      } else {
        CeilDivNext(computed % size + added - size, size);
      }
    }
  }

  method CutRequest(size: nat, computed: nat, added: nat, req: nat, pos: nat, cuChunk: seq<nat>, seqIdx: seq<nat>)
    returns (pos': nat, cuChunk': seq<nat>, seqIdx': seq<nat>)
    requires size > 0
    ensures pos' == pos + added
    ensures cuChunk' == cuChunk + Cuts(computed, added, size, pos)
    ensures seqIdx' == seqIdx + seq(Pieces(computed, added, size), _ => req)
  {
    var left := added;
    pos', cuChunk', seqIdx' := pos, cuChunk, seqIdx;
    ghost var head := if computed % size == 0 then 0 else 1;
    ghost var cuts := Cuts(computed, added, size, pos);
    if computed % size != 0 {
      FirstPiece(computed, added, size);
      seqIdx' := seqIdx' + [req];
      cuChunk' := cuChunk' + [pos'];
      var chunkLen := Min(CeilDiv(computed, size) * size - computed, left);
      pos' := pos' + chunkLen;
      left := left - chunkLen;
    }
    PiecesLeft(computed, added, size, head);
    var chunks := CeilDiv(left, size);
    for chunk := 0 to chunks
      invariant head + chunks == |cuts|
      invariant left == computed + added - Boundary(computed, added, size, head + chunk)
      invariant pos' == pos + added - left
      invariant cuChunk' == cuChunk + cuts[..head + chunk]
      invariant seqIdx' == seqIdx + seq(head + chunk, _ => req)
    {
      NextPiece(computed, added, size, head + chunk);
      assert cuts[..head + chunk + 1] == cuts[..head + chunk] + [pos'];
      seqIdx' := seqIdx' + [req];
      cuChunk' := cuChunk' + [pos'];
      var chunkLen := Min(size, left);
      pos' := pos' + chunkLen;
      left := left - chunkLen;
    }
    LastBoundary(computed, added, size);
    assert left == 0;
    assert cuts[..|cuts|] == cuts;
  }

  // ------------------------------------------------------------ the whole batch

  /** The scheduled requests: tokens computed before, and start offsets. */
  datatype Batch = Batch(size: nat, computed: seq<nat>, starts: seq<nat>)

  type Prefills = b: Batch | b.size > 0 && |b.starts| == |b.computed| + 1 && InOrder(b.starts)
    witness Batch(1, [], [0])

  function Added(b: Prefills, i: nat): nat
    requires i < |b.computed|
  {
    b.starts[i + 1] - b.starts[i]
  }

  function Offset(b: Prefills, i: nat): nat
    requires i <= |b.computed|
  {
    b.starts[i] - b.starts[0]
  }

  function PiecesOf(b: Prefills, i: nat): nat
    requires i < |b.computed|
  {
    Pieces(b.computed[i], Added(b, i), b.size)
  }

  /** Where the chunks of the first `n` requests begin. */
  function CutsUpTo(b: Prefills, n: nat): seq<nat>
    requires n <= |b.computed|
  {
    if n == 0 then [] else CutsUpTo(b, n - 1) + Cuts(b.computed[n - 1], Added(b, n - 1), b.size, Offset(b, n - 1))
  }

  function OwnersUpTo(b: Prefills, n: nat): seq<nat>
    requires n <= |b.computed|
  {
    if n == 0 then [] else OwnersUpTo(b, n - 1) + seq(PiecesOf(b, n - 1), _ => n - 1)
  }

  function LastUpTo(b: Prefills, n: nat): seq<int>
    requires n <= |b.computed|
  {
    seq(n, i requires 0 <= i < n => |CutsUpTo(b, i + 1)| - 1)
  }

  function CuChunk(b: Prefills): seq<nat> {
    CutsUpTo(b, |b.computed|) + [Offset(b, |b.computed|)]
  }

  function LastChunk(b: Prefills): seq<int> {
    LastUpTo(b, |b.computed|)
  }

  method ComputeChunkMetadata(b: Prefills) returns (cuChunk: seq<nat>, seqIdx: seq<nat>, lastChunk: seq<int>)
    ensures cuChunk == CuChunk(b) && seqIdx == OwnersUpTo(b, |b.computed|) && lastChunk == LastChunk(b)
  {
    cuChunk, seqIdx, lastChunk := [], [], [];
    var pos := 0;
    for req := 0 to |b.computed|
      invariant pos == Offset(b, req)
      invariant cuChunk == CutsUpTo(b, req) && seqIdx == OwnersUpTo(b, req) && lastChunk == LastUpTo(b, req)
    {
      pos, cuChunk, seqIdx := CutRequest(b.size, b.computed[req], Added(b, req), req, pos, cuChunk, seqIdx);
      lastChunk := lastChunk + [|cuChunk| - 1];
    }
    cuChunk := cuChunk + [pos];
  }

  // ------------------------------------------------------ what the tables hold

  /** Chunk `c` of request `i` begins where its boundary says. */
  lemma {:induction false} CutAt(b: Prefills, n: nat, i: nat, c: nat)
    requires i < n <= |b.computed| && c < PiecesOf(b, i)
    ensures |CutsUpTo(b, i)| + c < |CutsUpTo(b, n)|
    ensures CutsUpTo(b, n)[|CutsUpTo(b, i)| + c] == Cut(b.computed[i], Added(b, i), b.size, Offset(b, i), c)
  {
    if i < n - 1 {
      CutAt(b, n - 1, i, c);
    }
  }

  /** The first chunk of request `i`, or of the next one that has any, begins at
      the start of request `i`. */
  lemma {:induction false} StartAt(b: Prefills, i: nat)
    requires i <= |b.computed|
    ensures |CutsUpTo(b, i)| < |CuChunk(b)| && CuChunk(b)[|CutsUpTo(b, i)|] == Offset(b, i)
    decreases |b.computed| - i
  {
    if i < |b.computed| {
      if PiecesOf(b, i) > 0 {
        CutAt(b, |b.computed|, i, 0);
      } else {
        LastBoundary(b.computed[i], Added(b, i), b.size);
        StartAt(b, i + 1);
      }
    }
  }

  lemma BoundaryAt(b: Prefills, i: nat, c: nat)
    requires i < |b.computed| && c <= PiecesOf(b, i)
    ensures |CutsUpTo(b, i)| + c < |CuChunk(b)|
    ensures CuChunk(b)[|CutsUpTo(b, i)| + c] == Cut(b.computed[i], Added(b, i), b.size, Offset(b, i), c)
  {
    if c < PiecesOf(b, i) {
      CutAt(b, |b.computed|, i, c);
    } else {
      StartAt(b, i + 1);
      LastBoundary(b.computed[i], Added(b, i), b.size);
    }
  }

  lemma {:induction false} BoundariesInOrder(computed: nat, added: nat, size: nat, c: nat, c': nat)
    requires size > 0 && c <= c'
    ensures Boundary(computed, added, size, c) <= Boundary(computed, added, size, c')
    decreases c'
  {
    if c < c' {
      BoundariesInOrder(computed, added, size, c, c' - 1);
      BoundaryGrows(computed, added, size, c' - 1);
    }
  }

  lemma {:induction false} CutsInOrder(b: Prefills, n: nat)
    requires n <= |b.computed|
    ensures InOrder(CutsUpTo(b, n) + [Offset(b, n)])
  {
    if n > 0 {
      CutsInOrder(b, n - 1);
      var before, pos := CutsUpTo(b, n - 1), Offset(b, n - 1);
      var cuts := Cuts(b.computed[n - 1], Added(b, n - 1), b.size, pos);
      RequestInOrder(b.computed[n - 1], Added(b, n - 1), b.size, pos);
      OrdersJoin(before, pos, cuts + [Offset(b, n)]);
      assert before + (cuts + [Offset(b, n)]) == CutsUpTo(b, n) + [Offset(b, n)];
    }
  }

  lemma RequestInOrder(computed: nat, added: nat, size: nat, pos: nat)
    requires size > 0
    ensures InOrder(Cuts(computed, added, size, pos) + [pos + added])
    ensures forall k :: 0 <= k < |Cuts(computed, added, size, pos)| ==> pos <= Cuts(computed, added, size, pos)[k]
  {
    var cuts := Cuts(computed, added, size, pos);
    forall i, j | 0 <= i <= j < |cuts| ensures cuts[i] <= cuts[j] {
      BoundariesInOrder(computed, added, size, i, j);
    }
    forall i | 0 <= i < |cuts| ensures pos <= cuts[i] <= pos + added {
      BoundaryGrows(computed, added, size, i);
    }
  }

  lemma OrdersJoin(s: seq<nat>, pos: nat, t: seq<nat>)
    requires InOrder(s + [pos]) && InOrder(t) && forall k :: 0 <= k < |t| ==> pos <= t[k]
    ensures InOrder(s + t)
  {
    forall i, j | 0 <= i <= j < |s + t| ensures (s + t)[i] <= (s + t)[j] {
      if i < |s| {
        assert (s + [pos])[i] == s[i] <= (s + [pos])[|s|];
        if j < |s| {
          assert (s + [pos])[j] == s[j];
        }
      }
    }
  }

  /** Chunk boundaries in order, and the chunks of each request in their place. */
  lemma MetadataIsChunkTable(b: Prefills)
    ensures ChunkTable(CuChunk(b), LastChunk(b))
    ensures forall i {:trigger FirstChunk(LastChunk(b), i)} :: 0 <= i < |b.computed| ==>
              FirstChunk(LastChunk(b), i) == |CutsUpTo(b, i)|
  {
    CutsInOrder(b, |b.computed|);
    forall i {:trigger FirstChunk(LastChunk(b), i)} | 0 <= i < |b.computed|
      ensures FirstChunk(LastChunk(b), i) == |CutsUpTo(b, i)| <= LastChunk(b)[i] + 1 < |CuChunk(b)|
    {
      StartAt(b, i + 1);
    }
  }

  /** The chunks that the kernel finds for a request are those it was split into. */
  lemma ChunksAreSplit(b: Prefills, i: nat)
    requires i < |b.computed| && ChunkTable(CuChunk(b), LastChunk(b))
    ensures ChunksOf(CuChunk(b), LastChunk(b), i) == Split(b.computed[i], Added(b, i), b.size)
  {
    MetadataIsChunkTable(b);
    var chunks := ChunksOf(CuChunk(b), LastChunk(b), i);
    assert FirstChunk(LastChunk(b), i) == |CutsUpTo(b, i)|;
    forall c | 0 <= c < |chunks| ensures chunks[c] == ChunkLen(b.computed[i], Added(b, i), b.size, c) {
      BoundaryAt(b, i, c);
      BoundaryAt(b, i, c + 1);
    }
  }

  /** seq_idx names the request that each chunk belongs to. */
  lemma {:induction false} OwnerOfChunk(b: Prefills, n: nat, i: nat, k: nat)
    requires i < n <= |b.computed| && |CutsUpTo(b, i)| <= k < |CutsUpTo(b, i + 1)|
    ensures |OwnersUpTo(b, n)| == |CutsUpTo(b, n)| && k < |OwnersUpTo(b, n)| && OwnersUpTo(b, n)[k] == i
  {
    OwnersAreAsMany(b, n - 1);
    if i < n - 1 {
      OwnerOfChunk(b, n - 1, i, k);
    }
  }

  lemma {:induction false} OwnersAreAsMany(b: Prefills, n: nat)
    requires n <= |b.computed|
    ensures |OwnersUpTo(b, n)| == |CutsUpTo(b, n)|
  {
    if n > 0 {
      OwnersAreAsMany(b, n - 1);
    }
  }

  // -------------------------------------------------------------- block indices

  /** The block of the first token scheduled. */
  function FirstIdx(computed: nat, size: nat): int
    requires size > 0
  {
    (computed + size) / size - 1
  }

  /** The block of the last of `length` tokens: of those computed before, or of
      those together with the scheduled ones. */
  function LastIdx(length: nat, size: nat): nat
    requires size > 0
  {
    Max(0, CeilDiv(length, size) - 1)
  }

  lemma FirstIdxIs(computed: nat, size: nat)
    requires size > 0
    ensures FirstIdx(computed, size) == computed / size >= 0
  {
    Division.Bounds(computed, size);
    assert (computed / size + 1) * size == computed / size * size + size;
    Division.Quotient(computed / size + 1, size, computed % size);
  }

  /** It is 0 if there is no token. */
  lemma BlockOfLast(length: nat, size: nat)
    requires size > 0
    ensures LastIdx(length, size) == if length == 0 then 0 else (length - 1) / size
  {
    if length == 0 {
      CeilDivIs(0, size, 0);
    } else {
      var q := (length - 1) / size;
      Division.Bounds(length - 1, size);
      assert (q + 1) * size == q * size + size;
      CeilDivIs(length, size, q + 1);
    }
  }

  /** The chunks fill the blocks from the first scheduled to the last scheduled. */
  lemma PiecesFillBlocks(computed: nat, added: nat, size: nat)
    requires size > 0
    ensures computed / size + Pieces(computed, added, size) <= LastIdx(computed + added, size) + 1
    ensures added > 0 ==> computed / size + Pieces(computed, added, size) == LastIdx(computed + added, size) + 1
    ensures LastIdx(computed, size) <= LastIdx(computed + added, size)
  {
    var n, q := Pieces(computed, added, size), computed / size;
    PiecesIff(computed, added, size, n);
    if n > 0 {
      PiecesIff(computed, added, size, n - 1);
      CeilDivIff(computed + added, size, q + n - 1);
    } else if q > 0 {
      BlockStart(computed, size, 0);
      assert (q - 1) * size == q * size - size;
      CeilDivIff(computed + added, size, q - 1);
    }
    CeilDivIff(computed + added, size, q + n);
    CeilDivGrows(computed, computed + added, size);
  }

  lemma CeilDivGrows(m: nat, n: nat, d: nat)
    requires d > 0 && m <= n
    ensures CeilDiv(m, d) <= CeilDiv(n, d)
  {
    if CeilDiv(n, d) < CeilDiv(m, d) {
      CeilDivIff(m, d, CeilDiv(n, d));
      CeilDivIff(n, d, CeilDiv(n, d));
    }
  }

  /** The cache of a request as the metadata describes it to the kernel. */
  function CacheFor(row: seq<int>, computed: nat, added: nat, size: nat): (cache: Cache)
    requires size > 0
    ensures cache.Blocks?
  {
    FirstIdxIs(computed, size);
    Blocks(row, LastIdx(computed, size), FirstIdx(computed, size), LastIdx(computed + added, size), size,
           Split(computed, added, size))
  }

  /** Its chunks are aligned and fill the scheduled blocks. With more than one
      chunk the position counter of the kernel starts at the tokens computed. */
  lemma CacheIsAligned(row: seq<int>, computed: nat, added: nat, size: nat)
    requires size > 0
    ensures var cache := CacheFor(row, computed, added, size);
            && BlockAligned(cache) && cache.firstIdx + |cache.chunks| <= cache.lastIdx + 1 && cache.initIdx <= cache.lastIdx
            && (|cache.chunks| > 1 ==> FirstPosition(cache) == computed)
  {
    var cache := CacheFor(row, computed, added, size);
    FirstIdxIs(computed, size);
    PiecesFillBlocks(computed, added, size);
    BlockStart(computed, size, 0);
    BlockStart(computed, size, 1);
    if |cache.chunks| > 1 {
      InnerBoundary(computed, added, size, 1);
    }
    forall c | 1 <= c < |cache.chunks| - 1 ensures cache.chunks[c] == size {
      InnerBoundary(computed, added, size, c);
      InnerBoundary(computed, added, size, c + 1);
      BlockStart(computed, size, c);
      BlockStart(computed, size, c + 1);
      assert (c + 1) * size == c * size + size;
    }
  }

  // -------------------------------------------------------------- the launch

  /** The tables that the backend hands to the scan. */
  function TablesFor(b: Prefills, rows: seq<seq<int>>): (s: Slots)
    requires |rows| == |b.computed|
    ensures s.Tables?
  {
    var n := |b.computed|;
    Tables(rows,
           seq(n, i requires 0 <= i < n => LastIdx(b.computed[i], b.size)),
           seq(n, i requires 0 <= i < n => FirstIdxIs(b.computed[i], b.size); FirstIdx(b.computed[i], b.size)),
           seq(n, i requires 0 <= i < n => LastIdx(b.computed[i] + Added(b, i), b.size)),
           b.size, CuChunk(b), LastChunk(b))
  }

  /** The row of each request has an entry for the block of its last token. */
  predicate RowsLongEnough(b: Prefills, rows: seq<seq<int>>)
    requires |rows| == |b.computed|
  {
    forall i :: 0 <= i < |rows| ==> LastIdx(b.computed[i] + Added(b, i), b.size) < |rows[i]|
  }

  lemma BlocksAreCache(b: Prefills, rows: seq<seq<int>>, i: nat)
    requires |rows| == |b.computed| && i < |rows| && ChunkTable(CuChunk(b), LastChunk(b))
    ensures BlocksOf(TablesFor(b, rows), i) == CacheFor(rows[i], b.computed[i], Added(b, i), b.size)
  {
    ChunksAreSplit(b, i);
  }

  /** The tables meet all that the scan asks of them. */
  lemma MetadataFits(b: Prefills, rows: seq<seq<int>>)
    requires |rows| == |b.computed| && RowsLongEnough(b, rows) && b.starts[0] == 0
    ensures TablesFit(|b.computed|, TablesFor(b, rows), b.starts)
  {
    var s := TablesFor(b, rows);
    MetadataIsChunkTable(b);
    forall i {:trigger FirstChunk(s.lastChunk, i)} | 0 <= i < |rows|
      ensures s.cuChunk[FirstChunk(s.lastChunk, i)] == b.starts[i]
    {
      StartAt(b, i);
    }
    forall i {:trigger TableFits(s, i)} | 0 <= i < |rows| ensures TableFits(s, i) {
      BlocksAreCache(b, rows, i);
      CacheIsAligned(rows[i], b.computed[i], Added(b, i), b.size);
    }
    StartAt(b, |rows|);
  }

  /** So a launch with these tables is one of those that compute the scan. */
  lemma BuiltLaunchIsGood(l: Launch, b: Prefills, rows: seq<seq<int>>)
    requires ShapesFit(l) && l.layout == Packed(b.starts) && b.starts[0] == 0
    requires |rows| == |b.computed| && RowsLongEnough(b, rows) && l.slots == TablesFor(b, rows)
    ensures WellFormed(l)
  {
    MetadataFits(b, rows);
  }
}
