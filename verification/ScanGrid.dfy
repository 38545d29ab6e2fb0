/** The grid that selective_scan_fwd of vllm/_xpu_ops.py launches, built from
    start offsets, strides and cache tables: why its programs keep apart, and
    that the launch computes the scan. */
module ScanGrid {

  import Division
  import opened ScanRecurrence
  import opened ScanKernel
  import opened PrefixCache
  import opened ScanLaunch

  /** Sequences packed one behind the other, or padded to one length. */
  datatype Layout = Packed(starts: seq<nat>) | Padded(seqlen: nat)

  datatype Strides = Strides(batch: nat, dim: nat)

  /** Where cached states live: a slot per sequence, a slot index per sequence,
      or a row of the block table per sequence. */
  datatype Slots =
    | PerSequence
    | Indices(indices: seq<int>)
    | Tables(rows: seq<seq<int>>, initIdx: seq<nat>, firstIdx: seq<nat>, lastIdx: seq<nat>, blockSize: nat,
             cuChunk: seq<nat>, lastChunk: seq<int>)

  datatype Launch = Launch(batch: nat, dim: nat, size: nat, lanes: nat, channels: seq<Channel>, ratio: nat, layout: Layout,
                           u: Strides, delta: Strides, z: Strides, b: Strides, c: Strides, hasZ: bool, hasInit: seq<bool>,
                           slots: Slots, nullSlot: int)

  // ------------------------------------------------------ what the caller gives

  ghost predicate TablesFit(batch: nat, s: Slots, starts: seq<nat>)
    requires s.Tables? && |starts| == batch + 1
  {
    && |s.rows| == |s.initIdx| == |s.firstIdx| == |s.lastIdx| == |s.lastChunk| == batch && s.blockSize > 0
    && ChunkTable(s.cuChunk, s.lastChunk)
    && (forall i {:trigger FirstChunk(s.lastChunk, i)} :: 0 <= i < batch ==> s.cuChunk[FirstChunk(s.lastChunk, i)] == starts[i])
    && (batch > 0 ==> 0 <= s.lastChunk[batch - 1] + 1 < |s.cuChunk| && s.cuChunk[s.lastChunk[batch - 1] + 1] == starts[batch])
    && forall i {:trigger TableFits(s, i)} :: 0 <= i < batch ==> TableFits(s, i)
  }

  /** The row has entries for the blocks looked up, and the chunks of the sequence
      fill the scheduled blocks one by one. */
  ghost predicate TableFits(s: Slots, i: nat)
    requires s.Tables? && ChunkTable(s.cuChunk, s.lastChunk)
    requires i < |s.rows| == |s.initIdx| == |s.firstIdx| == |s.lastIdx| == |s.lastChunk|
  {
    && s.initIdx[i] < |s.rows[i]| && s.lastIdx[i] < |s.rows[i]|
    && BlockAligned(BlocksOf(s, i)) && s.firstIdx[i] + |BlocksOf(s, i).chunks| <= s.lastIdx[i] + 1
  }

  function BlocksOf(s: Slots, i: nat): (cache: Cache)
    requires s.Tables? && ChunkTable(s.cuChunk, s.lastChunk)
    requires i < |s.rows| == |s.initIdx| == |s.firstIdx| == |s.lastIdx| == |s.lastChunk|
    ensures cache.Blocks?
  {
    Blocks(s.rows[i], s.initIdx[i], s.firstIdx[i], s.lastIdx[i], s.blockSize, ChunksOf(s.cuChunk, s.lastChunk, i))
  }

  predicate InOrder(starts: seq<nat>) {
    forall i, j :: 0 <= i <= j < |starts| ==> starts[i] <= starts[j]
  }

  ghost predicate ShapesFit(l: Launch) {
    && |l.channels| == l.dim && l.size <= l.lanes && |l.hasInit| == l.batch && l.ratio > 0
    && (forall d :: 0 <= d < l.dim ==> |l.channels[d].a| == l.size)
    && (l.layout.Packed? ==> |l.layout.starts| == l.batch + 1 && InOrder(l.layout.starts))
  }

  ghost predicate WellFormed(l: Launch) {
    && ShapesFit(l)
    && (l.slots.Indices? ==> |l.slots.indices| == l.batch)
    && (l.slots.Tables? ==> l.layout.Packed? && TablesFit(l.batch, l.slots, l.layout.starts))
  }

  type GoodLaunch = l: Launch | WellFormed(l)
    ghost witness Launch(0, 0, 0, 0, [], 1, Padded(0), Strides(0, 0), Strides(0, 0), Strides(0, 0), Strides(0, 0), Strides(0, 0),
                         false, [], PerSequence, 0)

  // ------------------------------------------------------------ the programs

  function SeqLen(l: GoodLaunch, i: nat): nat
    requires i < l.batch
  {
    if l.layout.Packed? then l.layout.starts[i + 1] - l.layout.starts[i] else l.layout.seqlen
  }

  /** The base address of a row: of a channel, or for b and c of a group. */
  function Base(l: GoodLaunch, s: Strides, i: nat, d: nat): nat
    requires i < l.batch
  {
    if l.layout.Packed? then d * s.dim + l.layout.starts[i] * s.batch else i * s.batch + d * s.dim
  }

  function CacheOf(l: GoodLaunch, i: nat): Cache
    requires i < l.batch
  {
    match l.slots
    case PerSequence => OwnSlot(i)
    case Indices(indices) => Indexed(indices[i])
    case Tables(_, _, _, _, _, _, _) => BlocksOf(l.slots, i)
  }

  function ProgramAt(l: GoodLaunch, i: nat, d: nat): Program
    requires i < l.batch && d < l.dim
  {
    var ch := l.channels[d];
    Program(ArithmeticOf(ch, |ch.a|), ArithmeticOf(ch, l.lanes), l.size, l.lanes, SeqLen(l, i),
            Base(l, l.u, i, d), Base(l, l.delta, i, d), Base(l, l.z, i, d),
            Base(l, l.b, i, d / l.ratio), Base(l, l.c, i, d / l.ratio),
            l.hasZ, l.hasInit[i], CacheOf(l, i), l.nullSlot)
  }

  lemma GridIndex(l: Launch, i: nat)
    requires i < l.batch * l.dim
    ensures l.dim > 0 && i / l.dim < l.batch && i % l.dim < l.dim && i == i / l.dim * l.dim + i % l.dim
  {
    assert l.dim > 0;
    Division.Bounds(i, l.dim);
    if i / l.dim >= l.batch {
      Division.Scaled(l.batch, i / l.dim, l.dim);
    }
  }

  function Grid(l: GoodLaunch): (gs: seq<GridProgram>)
    ensures |gs| == l.batch * l.dim
  {
    seq(l.batch * l.dim, i requires 0 <= i < l.batch * l.dim =>
      GridIndex(l, i);
      GridProgram(ProgramAt(l, i / l.dim, i % l.dim), i % l.dim))
  }

  // --------------------------------------------------- the programs are in order

  /** The chunks of a sequence are as many tokens as it has. */
  lemma TableTokens(batch: nat, s: Slots, starts: seq<nat>, i: nat)
    requires |starts| == batch + 1 && s.Tables? && TablesFit(batch, s, starts) && i < batch
    ensures starts[i] + Total(ChunksOf(s.cuChunk, s.lastChunk, i)) == starts[i + 1]
  {
    ChunksCover(s.cuChunk, s.lastChunk, i);
    assert s.cuChunk[FirstChunk(s.lastChunk, i)] == starts[i];
    if i + 1 < batch {
      assert s.cuChunk[FirstChunk(s.lastChunk, i + 1)] == starts[i + 1];
    }
  }

  lemma TokensOfProgram(l: GoodLaunch, i: nat, d: nat)
    requires i < l.batch && d < l.dim
    ensures Total(ProgramAt(l, i, d).Chunks()) == SeqLen(l, i)
  {
    if l.slots.Tables? {
      TableTokens(l.batch, l.slots, l.layout.starts, i);
    } else {
      OneChunkTotal(SeqLen(l, i));
    }
  }

  lemma OneChunkTotal(n: nat)
    ensures Total([n]) == n
  {
    assert [n][..0] == [];
  }

  /** Chunks that fill the scheduled blocks store to entries of those blocks. */
  lemma StoreEntry(cache: Cache, c: nat)
    requires BlockAligned(cache) && cache.firstIdx + |cache.chunks| <= cache.lastIdx + 1 && c < |cache.chunks| - 1
    ensures cache.firstIdx <= BlockDone(cache, c) < cache.lastIdx
  {
    ChunksFillBlocks(cache, c);
  }

  lemma TableFound(s: Slots, i: nat)
    requires s.Tables? && ChunkTable(s.cuChunk, s.lastChunk)
    requires i < |s.rows| == |s.initIdx| == |s.firstIdx| == |s.lastIdx| == |s.lastChunk| && TableFits(s, i)
    ensures var cache := BlocksOf(s, i);
            forall c :: 0 <= c < |cache.chunks| - 1 ==> 0 <= BlockDone(cache, c) < |cache.row|
  {
    var cache := BlocksOf(s, i);
    forall c | 0 <= c < |cache.chunks| - 1 ensures 0 <= BlockDone(cache, c) < |cache.row| {
      StoreEntry(cache, c);
    }
  }

  lemma ProgramSlotsFound(l: GoodLaunch, i: nat, d: nat)
    requires i < l.batch && d < l.dim
    ensures ProgramAt(l, i, d).SlotsFound()
  {
    if l.slots.Tables? {
      assert TableFits(l.slots, i);
      TableFound(l.slots, i);
    }
  }

  /** Each place of the grid is one sequence and channel. */
  lemma GridAt(l: GoodLaunch, n: nat) returns (i: nat, d: nat)
    requires n < |Grid(l)|
    ensures i < l.batch && d < l.dim && n == i * l.dim + d && Grid(l)[n] == GridProgram(ProgramAt(l, i, d), d)
  {
    GridIndex(l, n);
    i, d := n / l.dim, n % l.dim;
    assert Grid(l)[n] == GridProgram(ProgramAt(l, i, d), d);
  }

  lemma GridLaunchable(l: GoodLaunch)
    ensures Launchable(Grid(l))
  {
    forall n | 0 <= n < |Grid(l)| ensures Grid(l)[n].p.SlotsFound() {
      var i, d := GridAt(l, n);
      ProgramSlotsFound(l, i, d);
    }
  }

  // -------------------------------------------------------------- rows keep apart

  /** Tokens of a row lie next to each other and no two rows overlap. */
  ghost predicate RowsApart(l: GoodLaunch, s: Strides) {
    if l.layout.Packed? then s.batch == 1 && l.layout.starts[l.batch] <= s.dim
    else
      || (l.layout.seqlen <= s.dim && l.dim * s.dim <= s.batch)
      || (l.layout.seqlen <= s.batch && l.batch * s.batch <= s.dim)
  }

  /** Of two rows the one with the smaller outer index ends before the other
      begins, whatever the inner ones. */
  lemma OuterApart(x: nat, x': nat, outer: nat, y: nat, y': nat, ny: nat, inner: nat, len: nat)
    requires x < x' && y < ny && len <= inner && ny * inner <= outer
    ensures x * outer + y * inner + len <= x' * outer + y' * inner
  {
    Division.Scaled(x + 1, x', outer);
    Division.Scaled(y + 1, ny, inner);
    assert (x + 1) * outer == x * outer + outer && (y + 1) * inner == y * inner + inner;
    assert y' * inner >= 0;
  }

  lemma InnerApart(x: nat, outer: nat, y: nat, y': nat, inner: nat, len: nat)
    requires y < y' && len <= inner
    ensures x * outer + y * inner + len <= x * outer + y' * inner
  {
    Division.Scaled(y + 1, y', inner);
    assert (y + 1) * inner == y * inner + inner;
  }

  lemma PaddedApart(l: GoodLaunch, s: Strides, i: nat, d: nat, i': nat, d': nat)
    requires l.layout.Padded? && RowsApart(l, s) && i < l.batch && d < l.dim && i' < l.batch && d' < l.dim
    requires i < i' || (i == i' && d < d')
    ensures Base(l, s, i, d) + l.layout.seqlen <= Base(l, s, i', d') || Base(l, s, i', d') + l.layout.seqlen <= Base(l, s, i, d)
  {
    var len := l.layout.seqlen;
    if len <= s.dim && l.dim * s.dim <= s.batch {
      if i < i' {
        OuterApart(i, i', s.batch, d, d', l.dim, s.dim, len);
      } else {
        InnerApart(i, s.batch, d, d', s.dim, len);
      }
    } else if d < d' {
      OuterApart(d, d', s.dim, i, i', l.batch, s.batch, len);
    } else if d' < d {
      OuterApart(d', d, s.dim, i', i, l.batch, s.batch, len);
    } else {
      InnerApart(d, s.dim, i, i', s.batch, len);
    }
  }

  lemma PackedApart(l: GoodLaunch, s: Strides, i: nat, d: nat, i': nat, d': nat)
    requires l.layout.Packed? && RowsApart(l, s) && i < l.batch && i' < l.batch
    requires d < d' || (d == d' && i < i')
    ensures Base(l, s, i, d) + SeqLen(l, i) <= Base(l, s, i', d')
  {
    var starts := l.layout.starts;
    assert starts[i + 1] <= starts[l.batch];
    if d < d' {
      Division.Scaled(d + 1, d', s.dim);
      assert (d + 1) * s.dim == d * s.dim + s.dim;
    } else {
      assert starts[i + 1] <= starts[i'];
    }
  }

  predicate Disjoint(base: nat, len: nat, base': nat, len': nat) {
    base + len <= base' || base' + len' <= base
  }

  /** The rows of different programs are disjoint. */
  lemma RowsOfPrograms(l: GoodLaunch, s: Strides, i: nat, d: nat, i': nat, d': nat)
    requires RowsApart(l, s) && i < l.batch && d < l.dim && i' < l.batch && d' < l.dim && (i != i' || d != d')
    ensures Disjoint(Base(l, s, i, d), SeqLen(l, i), Base(l, s, i', d'), SeqLen(l, i'))
  {
    if l.layout.Packed? {
      if d < d' || (d == d' && i < i') {
        PackedApart(l, s, i, d, i', d');
      } else {
        PackedApart(l, s, i', d', i, d);
      }
    } else if i < i' || (i == i' && d < d') {
      PaddedApart(l, s, i, d, i', d');
    } else {
      PaddedApart(l, s, i', d', i, d);
    }
  }

  // ------------------------------------------------------------- slots keep apart

  /** `slot` is an entry of the row that the sequence is scheduled to write. */
  ghost predicate Writes(cache: Cache, slot: int) {
    cache.Blocks? && exists n :: cache.firstIdx <= n <= cache.lastIdx && n < |cache.row| && cache.row[n] == slot
  }

  ghost predicate LoadsFrom(cache: Cache, slot: int) {
    cache.Blocks? && cache.initIdx < |cache.row| && cache.row[cache.initIdx] == slot
  }

  /** The slots that a sequence writes are nobody else's to write or load. A block
      that is only loaded, a shared prefix, may be loaded by many. */
  ghost predicate SlotsApart(l: GoodLaunch) {
    match l.slots
    case PerSequence => true
    case Indices(indices) =>
      forall i, j :: 0 <= i < l.batch && 0 <= j < l.batch && i != j && indices[i] != l.nullSlot ==> indices[i] != indices[j]
    case Tables(_, _, _, _, _, _, _) =>
      forall i, j, slot {:trigger Writes(CacheOf(l, i), slot), CacheOf(l, j)} ::
        0 <= i < l.batch && 0 <= j < l.batch && i != j && !Idle(l, i) && !Idle(l, j) && Writes(CacheOf(l, i), slot) ==>
          !Writes(CacheOf(l, j), slot) && !(l.hasInit[j] && LoadsFrom(CacheOf(l, j), slot))
  }

  /** A padding sequence, whose table row starts at the null block. */
  ghost predicate Idle(l: GoodLaunch, i: nat)
    requires i < l.batch
  {
    LoadsFrom(CacheOf(l, i), l.nullSlot)
  }

  /** A program in table mode stores to the blocks it is scheduled to write. */
  lemma StoresAreWrites(p: Program, c: nat)
    requires p.SlotsFound() && BlockAligned(p.cache) && p.cache.firstIdx + |p.cache.chunks| <= p.cache.lastIdx + 1
    requires c < |p.cache.chunks|
    ensures Writes(p.cache, StoreSlot(p, c))
  {
    var cache := p.cache;
    if c == |cache.chunks| - 1 {
      assert cache.row[cache.lastIdx] == StoreSlot(p, c);
    } else {
      StoreEntry(cache, c);
      assert cache.row[BlockDone(cache, c)] == StoreSlot(p, c);
    }
  }

  lemma ProgramWrites(l: GoodLaunch, i: nat, d: nat, c: nat)
    requires i < l.batch && d < l.dim && l.slots.Tables? && ProgramAt(l, i, d).SlotsFound() && c < |ProgramAt(l, i, d).Chunks()|
    ensures Writes(CacheOf(l, i), StoreSlot(ProgramAt(l, i, d), c))
  {
    assert TableFits(l.slots, i);
    StoresAreWrites(ProgramAt(l, i, d), c);
  }

  lemma SlotsOfPrograms(l: GoodLaunch, i: nat, j: nat, d: nat, c: nat, slot: int)
    requires SlotsApart(l) && i < l.batch && j < l.batch && i != j && d < l.dim
    requires ProgramAt(l, i, d).SlotsFound() && ProgramAt(l, j, d).SlotsFound()
    requires !ProgramAt(l, i, d).Skipped() && !ProgramAt(l, j, d).Skipped()
    requires c < |ProgramAt(l, i, d).Chunks()| && slot == StoreSlot(ProgramAt(l, i, d), c)
    ensures forall c' :: 0 <= c' < |ProgramAt(l, j, d).Chunks()| ==> slot != StoreSlot(ProgramAt(l, j, d), c')
    ensures l.hasInit[j] ==> slot != ProgramAt(l, j, d).LoadSlot()
  {
    if l.slots.Tables? {
      ProgramWrites(l, i, d, c);
      assert !Writes(CacheOf(l, j), slot);
      forall c' | 0 <= c' < |ProgramAt(l, j, d).Chunks()| ensures slot != StoreSlot(ProgramAt(l, j, d), c') {
        ProgramWrites(l, j, d, c');
      }
    }
  }

  // ------------------------------------------------------------- the whole grid

  ghost predicate Apart(l: GoodLaunch) {
    RowsApart(l, l.delta) && (l.hasZ ==> RowsApart(l, l.z)) && SlotsApart(l)
  }

  lemma CellsApart(l: GoodLaunch, i: nat, d: nat, i': nat, d': nat, cell: Cell)
    requires Apart(l) && i < l.batch && d < l.dim && i' < l.batch && d' < l.dim && (i != i' || d != d')
    requires ProgramAt(l, i, d).SlotsFound() && ProgramAt(l, i', d').SlotsFound()
    requires Owns(GridProgram(ProgramAt(l, i, d), d), cell)
    ensures !Uses(GridProgram(ProgramAt(l, i', d'), d'), cell)
  {
    TokensOfProgram(l, i, d);
    TokensOfProgram(l, i', d');
    match cell
    case DeltaCell(a) => RowsOfPrograms(l, l.delta, i, d, i', d');
    case ZCell(a) => RowsOfPrograms(l, l.z, i, d, i', d');
    case StateCell(slot, dim) =>
      if d == d' && !ProgramAt(l, i', d').Skipped() {
        var c :| 0 <= c < |ProgramAt(l, i, d).Chunks()| && slot == StoreSlot(ProgramAt(l, i, d), c);
        SlotsOfPrograms(l, i, i', d, c, slot);
      }
  }

  lemma GridCells(l: GoodLaunch, n: nat, m: nat, cell: Cell)
    requires Apart(l) && Launchable(Grid(l)) && n < |Grid(l)| && m < |Grid(l)| && n != m && Owns(Grid(l)[n], cell)
    ensures !Uses(Grid(l)[m], cell)
  {
    var i, d := GridAt(l, n);
    var i', d' := GridAt(l, m);
    ProgramSlotsFound(l, i, d);
    ProgramSlotsFound(l, i', d');
    CellsApart(l, i, d, i', d', cell);
  }

  /** No program of the grid writes what another one reads or writes. */
  lemma GridIsSeparate(l: GoodLaunch)
    requires Apart(l)
    ensures Launchable(Grid(l)) && Separate(Grid(l))
  {
    GridLaunchable(l);
    forall i, j, cell | 0 <= i < |Grid(l)| && 0 <= j < |Grid(l)| && i != j && Owns(Grid(l)[i], cell)
      ensures !Uses(Grid(l)[j], cell)
    {
      GridCells(l, i, j, cell);
    }
  }

  /** The tensors hold vectors of the state size, and enough of them. */
  ghost predicate InputsFit(l: GoodLaunch, x: Inputs, mem: Memory, i: nat, d: nat)
    requires i < l.batch && d < l.dim && ProgramAt(l, i, d).LoadFound()
  {
    var p := ProgramAt(l, i, d);
    && (forall k :: 0 <= k < |x.b| ==> |x.b[k]| == l.size) && (forall k :: 0 <= k < |x.c| ==> |x.c[k]| == l.size)
    && p.bBase + SeqLen(l, i) <= |x.b| && p.cBase + SeqLen(l, i) <= |x.c|
    && (l.hasInit[i] ==> |Read(mem, StateCell(p.LoadSlot(), d))| == l.size)
  }

  lemma ProgramSound(l: GoodLaunch, i: nat, d: nat)
    requires i < l.batch && d < l.dim
    ensures Sound(ProgramAt(l, i, d))
  {
    PaddingIsHarmless(l.channels[d], l.lanes);
  }

  lemma ProgramSized(l: GoodLaunch, x: Inputs, mem: Memory, i: nat, d: nat)
    requires i < l.batch && d < l.dim && ProgramAt(l, i, d).LoadFound() && InputsFit(l, x, mem, i, d)
    ensures Sized(x, GridProgram(ProgramAt(l, i, d), d), mem)
  {
    var p := ProgramAt(l, i, d);
    ProgramSound(l, i, d);
    TokensOfProgram(l, i, d);
    forall k | 0 <= k < Total(p.Chunks()) ensures TokenFits(l.size, TokensIn(x, p, mem)[k]) {
      assert TokensIn(x, p, mem)[k] == TokenIn(x, p, mem, k);
    }
  }

  /** Every finished schedule of the launch computes the scan, by the kernel's own
      arithmetic, of every sequence and channel that is not padding. */
  lemma GridComputesTheScan(l: GoodLaunch, x: Inputs, mem: Memory, run: seq<Config>, i: nat, d: nat)
    requires Apart(l) && i < l.batch && d < l.dim
    requires Launchable(Grid(l)) && IsSchedule(x, Grid(l), mem, run) && AllDone(Grid(l), run[|run| - 1])
    requires ProgramAt(l, i, d).SlotsFound() && !ProgramAt(l, i, d).Skipped() && InputsFit(l, x, mem, i, d)
    ensures var g := GridProgram(ProgramAt(l, i, d), d);
            HoldsScan(g, GoalOf(x, g, mem), run[|run| - 1].mem)
  {
    GridIsSeparate(l);
    ProgramSized(l, x, mem, i, d);
    var n := InGrid(l, i, d);
    LaunchComputesTheScan(x, Grid(l), mem, run, n);
  }

  lemma InGrid(l: GoodLaunch, i: nat, d: nat) returns (n: nat)
    requires i < l.batch && d < l.dim
    ensures n < |Grid(l)| && Grid(l)[n] == GridProgram(ProgramAt(l, i, d), d)
  {
    n := i * l.dim + d;
    Division.Scaled(i + 1, l.batch, l.dim);
    assert (i + 1) * l.dim == i * l.dim + l.dim;
    Division.Quotient(i, l.dim, d);
  }
}
