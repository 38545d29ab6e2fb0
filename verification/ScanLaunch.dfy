/** A launch of the selective scan over a (sequence, channel) grid: the programs
    run concurrently, interleaved token by token on one memory, in any order. */
module ScanLaunch {

  import opened ScanRecurrence
  import opened ScanKernel

  /** The memory that programs write: the rows of delta and z, and the cached
      states. A scalar cell holds a vector of length one. */
  datatype Cell = DeltaCell(addr: nat) | ZCell(addr: nat) | StateCell(slot: int, dim: nat)

  type Memory = map<Cell, Vec>

  /** The tensors that are only read. */
  datatype Inputs = Inputs(u: seq<real>, b: seq<Vec>, c: seq<Vec>)

  datatype GridProgram = GridProgram(p: Program, dim: nat)

  /** What a program does to memory, in order. */
  datatype Op = LoadState | ScanAt(pos: nat) | StoreTo(slot: int)

  function Read(mem: Memory, cell: Cell): Vec {
    if cell in mem then mem[cell] else []
  }

  function Scalar(mem: Memory, cell: Cell): real {
    At(Read(mem, cell), 0)
  }

  function TokenOps(from: nat, count: nat): seq<Op> {
    seq(count, k requires 0 <= k => ScanAt(from + k))
  }

  function OneChunk(p: Program, n: nat): seq<Op>
    requires p.SlotsFound() && n < |p.Chunks()|
  {
    TokenOps(Total(p.Chunks()[..n]), p.Chunks()[n]) + [StoreTo(StoreSlot(p, n))]
  }

  function ChunkOps(p: Program, n: nat): seq<Op>
    requires p.SlotsFound() && n <= |p.Chunks()|
  {
    if n == 0 then []
    else
      ChunkOps(p, n - 1) + OneChunk(p, n - 1)
  }

  function Ops(g: GridProgram): seq<Op>
    requires g.p.SlotsFound()
  {
    if g.p.Skipped() then [] else [LoadState] + ChunkOps(g.p, |g.p.Chunks()|)
  }

  function TokenIn(x: Inputs, p: Program, mem: Memory, pos: nat): Token {
    Token(At(x.u, p.uBase + pos), Scalar(mem, DeltaCell(p.deltaBase + pos)),
          if p.hasZ then Scalar(mem, ZCell(p.zBase + pos)) else 0.0,
          if p.bBase + pos < |x.b| then x.b[p.bBase + pos] else [],
          if p.cBase + pos < |x.c| then x.c[p.cBase + pos] else [])
  }

  datatype Pair = Pair(state: Vec, mem: Memory)

  function Prefix(v: Vec, n: nat): Vec {
    if n <= |v| then v[..n] else v
  }

  function StoreOutputs(p: Program, mem: Memory, pos: nat, out: real, gated: real): Memory {
    var m := mem[DeltaCell(p.deltaBase + pos) := [out]];
    if p.hasZ then m[ZCell(p.zBase + pos) := [gated]] else m
  }

  function ScanToken(p: Program, t: Token, pos: nat, s: Pair): Pair {
    var state := p.wide.step(s.state, t);
    var out := p.wide.output(state, t);
    Pair(state, StoreOutputs(p, s.mem, pos, out, p.wide.gate(out, t.z)))
  }

  /** One operation: on the program's own registers and the shared memory. */
  function DoOp(x: Inputs, g: GridProgram, op: Op, s: Pair): Pair
    requires g.p.LoadFound()
  {
    var p := g.p;
    match op
    case LoadState =>
      s.(state := if p.hasInit then Lanes(Read(s.mem, StateCell(p.LoadSlot(), g.dim)), p.lanes) else Lanes([], p.lanes))
    case ScanAt(pos) =>
      ScanToken(p, TokenIn(x, p, s.mem, pos), pos, s)
    case StoreTo(slot) =>
      s.(mem := s.mem[StateCell(slot, g.dim) := Prefix(s.state, p.size)])
  }

  function RunOps(x: Inputs, g: GridProgram, ops: seq<Op>, s: Pair): Pair
    requires g.p.LoadFound()
  {
    if ops == [] then s else DoOp(x, g, ops[|ops| - 1], RunOps(x, g, ops[..|ops| - 1], s))
  }

  // ------------------------------------------------------------- footprints

  predicate Owns(g: GridProgram, cell: Cell)
    requires g.p.SlotsFound()
  {
    && !g.p.Skipped()
    && match cell
       case DeltaCell(a) => g.p.deltaBase <= a < g.p.deltaBase + Total(g.p.Chunks())
       case ZCell(a) => g.p.hasZ && g.p.zBase <= a < g.p.zBase + Total(g.p.Chunks())
       case StateCell(slot, dim) => dim == g.dim && exists c :: 0 <= c < |g.p.Chunks()| && slot == StoreSlot(g.p, c)
  }

  predicate Uses(g: GridProgram, cell: Cell)
    requires g.p.SlotsFound()
  {
    Owns(g, cell) || (!g.p.Skipped() && g.p.hasInit && cell == StateCell(g.p.LoadSlot(), g.dim))
  }

  /** An operation of the program: it only touches cells of the program. */
  predicate OwnOp(g: GridProgram, op: Op)
    requires g.p.SlotsFound()
  {
    match op
    case LoadState => true
    case ScanAt(pos) => pos < Total(g.p.Chunks())
    case StoreTo(slot) => exists c :: 0 <= c < |g.p.Chunks()| && slot == StoreSlot(g.p, c)
  }

  lemma {:induction false} ChunkOpsAreOwn(g: GridProgram, n: nat, i: nat)
    requires g.p.SlotsFound() && n <= |g.p.Chunks()| && i < |ChunkOps(g.p, n)|
    ensures OwnOp(g, ChunkOps(g.p, n)[i])
  {
    var p := g.p;
    var before := |ChunkOps(p, n - 1)|;
    if i < before {
      ChunkOpsAreOwn(g, n - 1, i);
    } else {
      TotalGrows(p.Chunks(), n);
      assert p.Chunks()[..n][..n - 1] == p.Chunks()[..n - 1];
    }
  }

  lemma OpsAreOwn(g: GridProgram, i: nat)
    requires g.p.SlotsFound() && i < |Ops(g)|
    ensures OwnOp(g, Ops(g)[i]) && !g.p.Skipped()
  {
    if i > 0 {
      ChunkOpsAreOwn(g, |g.p.Chunks()|, i - 1);
    }
  }

  ghost predicate SameUsed(g: GridProgram, m: Memory, m': Memory)
    requires g.p.SlotsFound()
  {
    forall cell :: Uses(g, cell) ==> Read(m, cell) == Read(m', cell)
  }

  ghost predicate SameUnowned(g: GridProgram, m: Memory, m': Memory)
    requires g.p.SlotsFound()
  {
    forall cell :: !Owns(g, cell) ==> Read(m, cell) == Read(m', cell)
  }

  /** An operation sees only used cells and changes only owned ones. */
  lemma OpIsLocal(x: Inputs, g: GridProgram, op: Op, state: Vec, m: Memory, m': Memory)
    requires g.p.SlotsFound() && !g.p.Skipped() && OwnOp(g, op) && SameUsed(g, m, m')
    ensures var r, r' := DoOp(x, g, op, Pair(state, m)), DoOp(x, g, op, Pair(state, m'));
            r.state == r'.state && SameUsed(g, r.mem, r'.mem) && SameUnowned(g, m, r.mem)
  {
    if op.ScanAt? {
      var p := g.p;
      assert Uses(g, DeltaCell(p.deltaBase + op.pos));
      assert p.hasZ ==> Uses(g, ZCell(p.zBase + op.pos));
      assert TokenIn(x, p, m, op.pos) == TokenIn(x, p, m', op.pos);
    } else if op.LoadState? {
      assert g.p.hasInit ==> Uses(g, StateCell(g.p.LoadSlot(), g.dim));
    } else {
      assert Owns(g, StateCell(op.slot, g.dim));
    }
  }

  // ----------------------------------------------------------- interleaving

  /** Where a program is, and its registers. */
  datatype Local = Local(pc: nat, state: Vec)

  datatype Config = Config(mem: Memory, locals: seq<Local>)

  ghost predicate Launchable(gs: seq<GridProgram>)
  {
    forall i :: 0 <= i < |gs| ==> gs[i].p.SlotsFound()
  }

  /** No program writes a cell that another one reads or writes: sequences have
      their own tokens and cache slots, channels their own rows. */
  ghost predicate Separate(gs: seq<GridProgram>)
    requires Launchable(gs)
  {
    forall i, j, cell :: 0 <= i < |gs| && 0 <= j < |gs| && i != j && Owns(gs[i], cell) ==> !Uses(gs[j], cell)
  }

  ghost predicate Moves(x: Inputs, gs: seq<GridProgram>, c: Config, i: nat, c': Config)
    requires Launchable(gs)
  {
    && i < |gs| == |c.locals| && c.locals[i].pc < |Ops(gs[i])|
    && var r := DoOp(x, gs[i], Ops(gs[i])[c.locals[i].pc], Pair(c.locals[i].state, c.mem));
    c' == Config(r.mem, c.locals[i := Local(c.locals[i].pc + 1, r.state)])
  }

  ghost predicate SomeMove(x: Inputs, gs: seq<GridProgram>, c: Config, c': Config)
    requires Launchable(gs)
  {
    exists i: nat :: Moves(x, gs, c, i, c')
  }

  ghost predicate IsSchedule(x: Inputs, gs: seq<GridProgram>, mem: Memory, run: seq<Config>)
    requires Launchable(gs)
  {
    && |run| > 0 && run[0] == Config(mem, seq(|gs|, _ => Local(0, [])))
    && forall k :: 0 <= k < |run| - 1 ==> SomeMove(x, gs, run[k], run[k + 1])
  }

  /** The program on its own, after its first `k` operations. */
  function Alone(x: Inputs, g: GridProgram, mem: Memory, k: nat): Pair
    requires g.p.SlotsFound() && k <= |Ops(g)|
  {
    RunOps(x, g, Ops(g)[..k], Pair([], mem))
  }

  lemma AloneNext(x: Inputs, g: GridProgram, mem: Memory, k: nat)
    requires g.p.SlotsFound() && k < |Ops(g)|
    ensures Alone(x, g, mem, k + 1) == DoOp(x, g, Ops(g)[k], Alone(x, g, mem, k))
  {
    assert Ops(g)[..k + 1][..k] == Ops(g)[..k];
  }

  /** Program `i` is where it would be alone, and sees what it would see. */
  ghost predicate InStep(x: Inputs, gs: seq<GridProgram>, mem: Memory, c: Config, i: nat)
    requires Launchable(gs) && i < |gs| == |c.locals|
  {
    && c.locals[i].pc <= |Ops(gs[i])|
    && c.locals[i].state == Alone(x, gs[i], mem, c.locals[i].pc).state
    && SameUsed(gs[i], c.mem, Alone(x, gs[i], mem, c.locals[i].pc).mem)
  }

  ghost predicate LaunchInv(x: Inputs, gs: seq<GridProgram>, mem: Memory, c: Config)
    requires Launchable(gs)
  {
    && |c.locals| == |gs|
    && (forall i :: 0 <= i < |gs| ==> InStep(x, gs, mem, c, i))
    && forall cell :: Unowned(gs, cell) ==> Read(c.mem, cell) == Read(mem, cell)
  }

  ghost predicate Unowned(gs: seq<GridProgram>, cell: Cell)
    requires Launchable(gs)
  {
    forall i :: 0 <= i < |gs| ==> !Owns(gs[i], cell)
  }

  lemma MoveKeepsMover(x: Inputs, gs: seq<GridProgram>, mem: Memory, c: Config, i: nat, c': Config)
    requires Launchable(gs) && LaunchInv(x, gs, mem, c) && Moves(x, gs, c, i, c')
    ensures InStep(x, gs, mem, c', i) && SameUnowned(gs[i], c.mem, c'.mem)
  {
    var k := c.locals[i].pc;
    assert InStep(x, gs, mem, c, i);
    OpsAreOwn(gs[i], k);
    OpIsLocal(x, gs[i], Ops(gs[i])[k], c.locals[i].state, c.mem, Alone(x, gs[i], mem, k).mem);
    AloneNext(x, gs[i], mem, k);
  }

  lemma MoveKeepsInv(x: Inputs, gs: seq<GridProgram>, mem: Memory, c: Config, i: nat, c': Config)
    requires Launchable(gs) && Separate(gs) && LaunchInv(x, gs, mem, c) && Moves(x, gs, c, i, c')
    ensures LaunchInv(x, gs, mem, c')
  {
    MoveKeepsMover(x, gs, mem, c, i, c');
    forall j | 0 <= j < |gs| ensures InStep(x, gs, mem, c', j) {
      if j != i {
        assert InStep(x, gs, mem, c, j);
        forall cell | Uses(gs[j], cell) ensures Read(c'.mem, cell) == Read(c.mem, cell) {
          assert !Owns(gs[i], cell);
        }
      }
    }
  }

  lemma {:induction false} ScheduleInv(x: Inputs, gs: seq<GridProgram>, mem: Memory, run: seq<Config>, k: nat)
    requires Launchable(gs) && Separate(gs) && IsSchedule(x, gs, mem, run) && k < |run|
    ensures LaunchInv(x, gs, mem, run[k])
  {
    if k == 0 {
      forall i | 0 <= i < |gs| ensures InStep(x, gs, mem, run[0], i) {
        assert Ops(gs[i])[..0] == [];
      }
    } else {
      ScheduleInv(x, gs, mem, run, k - 1);
      assert SomeMove(x, gs, run[k - 1], run[k - 1 + 1]);
      var i: nat :| Moves(x, gs, run[k - 1], i, run[k]);
      MoveKeepsInv(x, gs, mem, run[k - 1], i, run[k]);
    }
  }

  ghost predicate AllDone(gs: seq<GridProgram>, c: Config)
    requires Launchable(gs)
  {
    |c.locals| == |gs| && forall i :: 0 <= i < |gs| ==> c.locals[i].pc == |Ops(gs[i])|
  }

  /** Whatever the schedule, a finished launch leaves in every cell what the
      owner of the cell leaves there when it runs alone, and nobody's cells as
      they were. */
  lemma LaunchResult(x: Inputs, gs: seq<GridProgram>, mem: Memory, run: seq<Config>)
    requires Launchable(gs) && Separate(gs) && IsSchedule(x, gs, mem, run)
    requires AllDone(gs, run[|run| - 1])
    ensures forall i, cell :: 0 <= i < |gs| && Owns(gs[i], cell) ==>
              Read(run[|run| - 1].mem, cell) == Read(RunOps(x, gs[i], Ops(gs[i]), Pair([], mem)).mem, cell)
    ensures forall cell :: Unowned(gs, cell) ==> Read(run[|run| - 1].mem, cell) == Read(mem, cell)
  {
    ScheduleInv(x, gs, mem, run, |run| - 1);
    forall i, cell | 0 <= i < |gs| && Owns(gs[i], cell)
      ensures Read(run[|run| - 1].mem, cell) == Read(RunOps(x, gs[i], Ops(gs[i]), Pair([], mem)).mem, cell)
    {
      assert InStep(x, gs, mem, run[|run| - 1], i);
      assert Ops(gs[i])[..|Ops(gs[i])|] == Ops(gs[i]);
    }
  }

  /** Two finished schedules of one launch leave the same memory. */
  lemma OrderDoesNotMatter(x: Inputs, gs: seq<GridProgram>, mem: Memory, run: seq<Config>, run': seq<Config>, cell: Cell)
    requires Launchable(gs) && Separate(gs)
    requires IsSchedule(x, gs, mem, run) && AllDone(gs, run[|run| - 1])
    requires IsSchedule(x, gs, mem, run') && AllDone(gs, run'[|run'| - 1])
    ensures Read(run[|run| - 1].mem, cell) == Read(run'[|run'| - 1].mem, cell)
  {
    LaunchResult(x, gs, mem, run);
    LaunchResult(x, gs, mem, run');
    if !Unowned(gs, cell) {
      var i :| 0 <= i < |gs| && Owns(gs[i], cell);
    }
  }

  // ---------------------------------------------------- a program on its own

  lemma {:induction false} RunOpsAppend(x: Inputs, g: GridProgram, a: seq<Op>, b: seq<Op>, s: Pair)
    requires g.p.LoadFound()
    ensures RunOps(x, g, a + b, s) == RunOps(x, g, b, RunOps(x, g, a, s))
    decreases |b|
  {
    if b == [] {
      assert a + b == a;
    } else {
      RunOpsAppend(x, g, a, b[..|b| - 1], s);
      assert (a + b)[..|a + b| - 1] == a + b[..|b| - 1];
    }
  }

  /** The tokens in memory at the start. */
  function TokensIn(x: Inputs, p: Program, mem: Memory): (ts: seq<Token>)
    ensures |ts| == Total(p.Chunks())
  {
    seq(Total(p.Chunks()), k requires 0 <= k => TokenIn(x, p, mem, k))
  }

  function StartIn(g: GridProgram, mem: Memory): Vec
    requires g.p.LoadFound()
  {
    if g.p.hasInit then Read(mem, StateCell(g.p.LoadSlot(), g.dim)) else Lanes([], g.p.size)
  }

  ghost predicate Sized(x: Inputs, g: GridProgram, mem: Memory)
    requires g.p.LoadFound()
  {
    && Sound(g.p) && |StartIn(g, mem)| == g.p.size
    && forall k :: 0 <= k < Total(g.p.Chunks()) ==> TokenFits(g.p.size, TokensIn(x, g.p, mem)[k])
  }

  /** The slots stored to by the first `n` chunks, with their states. */
  function StatesAfter(p: Program, start: Vec, tokens: seq<Token>, n: nat): map<int, Vec>
    requires p.SlotsFound() && n <= |p.Chunks()| && |tokens| == Total(p.Chunks())
  {
    if n == 0 then map[]
    else
      TotalGrows(p.Chunks(), n);
      StatesAfter(p, start, tokens, n - 1)[StoreSlot(p, n - 1) := StateAfter(p.k, start, tokens[..ChunkEnd(p, n - 1)])]
  }

  /** What cell `a` of a row is to hold once `done` outputs are written. */
  function Wanted(outs: seq<real>, base: nat, done: nat, a: nat, before: Vec): Vec
    requires done <= |outs|
  {
    if base <= a < base + done then [outs[a - base]] else before
  }

  /** A row of delta whose first `done` cells hold `outs` and whose later cells
      are as in `mem`. */
  ghost predicate DeltaReached(outs: seq<real>, base: nat, mem: Memory, now: Memory, done: nat)
  {
    && done <= |outs|
    && forall a: nat {:trigger Read(now, DeltaCell(a))} :: a >= base ==>
         Read(now, DeltaCell(a)) == Wanted(outs, base, done, a, Read(mem, DeltaCell(a)))
  }

  ghost predicate ZReached(outs: seq<real>, base: nat, mem: Memory, now: Memory, done: nat)
  {
    && done <= |outs|
    && forall a: nat {:trigger Read(now, ZCell(a))} :: a >= base ==>
         Read(now, ZCell(a)) == Wanted(outs, base, done, a, Read(mem, ZCell(a)))
  }

  /** The cached states of one channel: stored ones, and the others as in `mem`. */
  ghost predicate SlotsReached(stored: map<int, Vec>, dim: nat, mem: Memory, now: Memory)
  {
    forall slot {:trigger Read(now, StateCell(slot, dim))} ::
      Read(now, StateCell(slot, dim)) == if slot in stored then stored[slot] else Read(mem, StateCell(slot, dim))
  }

  lemma ReadAfter(now: Memory, cell: Cell, v: Vec, other: Cell)
    ensures Read(now[cell := v], other) == if other == cell then v else Read(now, other)
  {
  }

  /** What the program is to compute. */
  datatype Goal = Goal(start: Vec, tokens: seq<Token>, outs: seq<real>, gateds: seq<real>)

  ghost function GoalOf(x: Inputs, g: GridProgram, mem: Memory): (goal: Goal)
    requires g.p.LoadFound()
    ensures |goal.outs| == |goal.gateds| == |goal.tokens| == Total(g.p.Chunks())
  {
    var start, tokens := StartIn(g, mem), TokensIn(x, g.p, mem);
    Goal(start, tokens, Outs(g.p.k, start, tokens), Gateds(g.p.k, start, tokens))
  }

  ghost predicate RowsReached(p: Program, goal: Goal, mem: Memory, now: Memory, done: nat)
  {
    && DeltaReached(goal.outs, p.deltaBase, mem, now, done)
    && (p.hasZ ==> ZReached(goal.gateds, p.zBase, mem, now, done))
  }

  // ------------------------------------------------------ the tokens of a run

  /** The goal is what the recurrence makes of the tokens that are in `mem`. */
  ghost predicate Prepared(x: Inputs, p: Program, mem: Memory, goal: Goal) {
    && Sound(p) && |goal.start| == p.size && |goal.outs| == |goal.gateds| == |goal.tokens|
    && (forall k :: 0 <= k < |goal.tokens| ==> TokenFits(p.size, goal.tokens[k]))
    && (forall k :: 0 <= k < |goal.tokens| ==> goal.tokens[k] == TokenIn(x, p, mem, k))
    && goal.outs == Outs(p.k, goal.start, goal.tokens) && goal.gateds == Gateds(p.k, goal.start, goal.tokens)
  }

  ghost function StateAt(p: Program, goal: Goal, done: nat): Vec
    requires done <= |goal.tokens|
  {
    Lanes(StateAfter(p.k, goal.start, goal.tokens[..done]), p.lanes)
  }

  /** The inputs of the next token are still in place. */
  lemma TokenInPlace(x: Inputs, p: Program, goal: Goal, mem: Memory, now: Memory, done: nat)
    requires RowsReached(p, goal, mem, now, done)
    ensures TokenIn(x, p, now, done) == TokenIn(x, p, mem, done)
  {
  }

  /** What one token's operation computes from the token's own inputs. */
  lemma TokenComputes(p: Program, goal: Goal, s: Pair, done: nat)
    requires Sound(p) && |goal.start| == p.size && done < |goal.tokens|
    requires forall k :: 0 <= k < |goal.tokens| ==> TokenFits(p.size, goal.tokens[k])
    requires s.state == StateAt(p, goal, done)
    ensures ScanToken(p, goal.tokens[done], done, s) ==
            Pair(StateAt(p, goal, done + 1),
                 StoreOutputs(p, s.mem, done, OutAt(p.k, goal.start, goal.tokens, done), GatedAt(p.k, goal.start, goal.tokens, done)))
  {
    LaneStep(p, goal.start, goal.tokens, done);
  }

  lemma TokenStep(x: Inputs, g: GridProgram, goal: Goal, mem: Memory, s: Pair, done: nat)
    requires g.p.LoadFound() && Prepared(x, g.p, mem, goal) && done < |goal.tokens|
    requires s.state == StateAt(g.p, goal, done) && RowsReached(g.p, goal, mem, s.mem, done)
    ensures DoOp(x, g, ScanAt(done), s) ==
            Pair(StateAt(g.p, goal, done + 1), StoreOutputs(g.p, s.mem, done, goal.outs[done], goal.gateds[done]))
  {
    TokenInPlace(x, g.p, goal, mem, s.mem, done);
    TokenComputes(g.p, goal, s, done);
  }

  lemma DeltaAfterToken(outs: seq<real>, base: nat, mem: Memory, now: Memory, k: nat)
    requires k < |outs| && DeltaReached(outs, base, mem, now, k)
    ensures DeltaReached(outs, base, mem, now[DeltaCell(base + k) := [outs[k]]], k + 1)
  {
    forall a: nat | a >= base
      ensures Read(now[DeltaCell(base + k) := [outs[k]]], DeltaCell(a)) ==
              Wanted(outs, base, k + 1, a, Read(mem, DeltaCell(a)))
    {
      ReadAfter(now, DeltaCell(base + k), [outs[k]], DeltaCell(a));
    }
  }

  lemma ZAfterToken(outs: seq<real>, base: nat, mem: Memory, now: Memory, k: nat)
    requires k < |outs| && ZReached(outs, base, mem, now, k)
    ensures ZReached(outs, base, mem, now[ZCell(base + k) := [outs[k]]], k + 1)
  {
    forall a: nat | a >= base
      ensures Read(now[ZCell(base + k) := [outs[k]]], ZCell(a)) == Wanted(outs, base, k + 1, a, Read(mem, ZCell(a)))
    {
      ReadAfter(now, ZCell(base + k), [outs[k]], ZCell(a));
    }
  }

  /** Writes to other cells leave the rows and the slots as they are. */
  lemma DeltaAfterOther(outs: seq<real>, base: nat, mem: Memory, now: Memory, done: nat, cell: Cell, v: Vec)
    requires DeltaReached(outs, base, mem, now, done) && !cell.DeltaCell?
    ensures DeltaReached(outs, base, mem, now[cell := v], done)
  {
    forall a: nat | a >= base
      ensures Read(now[cell := v], DeltaCell(a)) == Wanted(outs, base, done, a, Read(mem, DeltaCell(a)))
    {
      ReadAfter(now, cell, v, DeltaCell(a));
    }
  }

  lemma ZAfterOther(outs: seq<real>, base: nat, mem: Memory, now: Memory, done: nat, cell: Cell, v: Vec)
    requires ZReached(outs, base, mem, now, done) && !cell.ZCell?
    ensures ZReached(outs, base, mem, now[cell := v], done)
  {
    forall a: nat | a >= base
      ensures Read(now[cell := v], ZCell(a)) == Wanted(outs, base, done, a, Read(mem, ZCell(a)))
    {
      ReadAfter(now, cell, v, ZCell(a));
    }
  }

  lemma SlotsAfterOther(stored: map<int, Vec>, dim: nat, mem: Memory, now: Memory, cell: Cell, v: Vec)
    requires SlotsReached(stored, dim, mem, now) && !cell.StateCell?
    ensures SlotsReached(stored, dim, mem, now[cell := v])
  {
    forall slot
      ensures Read(now[cell := v], StateCell(slot, dim)) ==
              if slot in stored then stored[slot] else Read(mem, StateCell(slot, dim))
    {
      ReadAfter(now, cell, v, StateCell(slot, dim));
    }
  }

  lemma RowsAfterToken(p: Program, goal: Goal, mem: Memory, now: Memory, k: nat)
    requires k < |goal.outs| == |goal.gateds| && RowsReached(p, goal, mem, now, k)
    ensures RowsReached(p, goal, mem, StoreOutputs(p, now, k, goal.outs[k], goal.gateds[k]), k + 1)
  {
    DeltaAfterToken(goal.outs, p.deltaBase, mem, now, k);
    if p.hasZ {
      var mid := now[DeltaCell(p.deltaBase + k) := [goal.outs[k]]];
      ZAfterOther(goal.gateds, p.zBase, mem, now, k, DeltaCell(p.deltaBase + k), [goal.outs[k]]);
      ZAfterToken(goal.gateds, p.zBase, mem, mid, k);
      DeltaAfterOther(goal.outs, p.deltaBase, mem, mid, k + 1, ZCell(p.zBase + k), [goal.gateds[k]]);
    }
  }

  lemma SlotsAfterToken(p: Program, goal: Goal, stored: map<int, Vec>, dim: nat, mem: Memory, now: Memory, k: nat)
    requires k < |goal.outs| == |goal.gateds| && SlotsReached(stored, dim, mem, now)
    ensures SlotsReached(stored, dim, mem, StoreOutputs(p, now, k, goal.outs[k], goal.gateds[k]))
  {
    SlotsAfterOther(stored, dim, mem, now, DeltaCell(p.deltaBase + k), [goal.outs[k]]);
    if p.hasZ {
      var mid := now[DeltaCell(p.deltaBase + k) := [goal.outs[k]]];
      SlotsAfterOther(stored, dim, mem, mid, ZCell(p.zBase + k), [goal.gateds[k]]);
    }
  }

  // ------------------------------------------------------ the chunks of a run

  /** Memory and registers after `done` tokens, with `stored` in the slots. */
  ghost predicate ReachedWith(g: GridProgram, goal: Goal, stored: map<int, Vec>, mem: Memory, s: Pair, done: nat)
    requires done <= |goal.tokens|
  {
    && s.state == StateAt(g.p, goal, done)
    && RowsReached(g.p, goal, mem, s.mem, done)
    && SlotsReached(stored, g.dim, mem, s.mem)
  }

  /** Memory and registers after `done` tokens and `n` stores. */
  ghost predicate Reached(g: GridProgram, goal: Goal, mem: Memory, s: Pair, done: nat, n: nat)
    requires g.p.SlotsFound() && |goal.tokens| == Total(g.p.Chunks()) && done <= |goal.tokens| && n <= |g.p.Chunks()|
  {
    ReachedWith(g, goal, StatesAfter(g.p, goal.start, goal.tokens, n), mem, s, done)
  }

  /** One token: the state advances and its outputs are written. */
  lemma TokenReached(x: Inputs, g: GridProgram, goal: Goal, stored: map<int, Vec>, mem: Memory, s: Pair, done: nat)
    requires g.p.LoadFound() && Prepared(x, g.p, mem, goal) && done < |goal.tokens|
    requires ReachedWith(g, goal, stored, mem, s, done)
    ensures ReachedWith(g, goal, stored, mem, DoOp(x, g, ScanAt(done), s), done + 1)
  {
    TokenStep(x, g, goal, mem, s, done);
    RowsAfterToken(g.p, goal, mem, s.mem, done);
    SlotsAfterToken(g.p, goal, stored, g.dim, mem, s.mem, done);
  }

  lemma RowsAfterStore(p: Program, goal: Goal, dim: nat, slot: int, v: Vec, mem: Memory, now: Memory, done: nat)
    requires RowsReached(p, goal, mem, now, done)
    ensures RowsReached(p, goal, mem, now[StateCell(slot, dim) := v], done)
  {
    DeltaAfterOther(goal.outs, p.deltaBase, mem, now, done, StateCell(slot, dim), v);
    if p.hasZ {
      ZAfterOther(goal.gateds, p.zBase, mem, now, done, StateCell(slot, dim), v);
    }
  }

  lemma SlotsAfterStore(stored: map<int, Vec>, dim: nat, slot: int, v: Vec, mem: Memory, now: Memory)
    requires SlotsReached(stored, dim, mem, now)
    ensures SlotsReached(stored[slot := v], dim, mem, now[StateCell(slot, dim) := v])
  {
    forall other
      ensures Read(now[StateCell(slot, dim) := v], StateCell(other, dim)) ==
              if other in stored[slot := v] then stored[slot := v][other] else Read(mem, StateCell(other, dim))
    {
      ReadAfter(now, StateCell(slot, dim), v, StateCell(other, dim));
    }
  }

  /** The state read off the lanes is the state of the recurrence. */
  lemma LanesHoldState(x: Inputs, p: Program, mem: Memory, goal: Goal, done: nat)
    requires Prepared(x, p, mem, goal) && done <= |goal.tokens|
    ensures Prefix(StateAt(p, goal, done), p.size) == StateAfter(p.k, goal.start, goal.tokens[..done])
  {
    StateKeepsSize(p.k, p.wide, p.size, p.lanes, goal.start, goal.tokens[..done]);
    LanesPrefix(StateAfter(p.k, goal.start, goal.tokens[..done]), p.lanes);
  }

  lemma StoreReached(x: Inputs, g: GridProgram, goal: Goal, stored: map<int, Vec>, mem: Memory, s: Pair, done: nat, slot: int)
    requires g.p.LoadFound() && Prepared(x, g.p, mem, goal) && done <= |goal.tokens|
    requires ReachedWith(g, goal, stored, mem, s, done)
    ensures ReachedWith(g, goal, stored[slot := StateAfter(g.p.k, goal.start, goal.tokens[..done])], mem,
                        DoOp(x, g, StoreTo(slot), s), done)
  {
    var v := StateAfter(g.p.k, goal.start, goal.tokens[..done]);
    LanesHoldState(x, g.p, mem, goal, done);
    RowsAfterStore(g.p, goal, g.dim, slot, v, mem, s.mem, done);
    SlotsAfterStore(stored, g.dim, slot, v, mem, s.mem);
  }

  lemma LoadReached(x: Inputs, g: GridProgram, mem: Memory)
    requires g.p.LoadFound() && Sized(x, g, mem)
    ensures ReachedWith(g, GoalOf(x, g, mem), map[], mem, DoOp(x, g, LoadState, Pair([], mem)), 0)
  {
    assert TokensIn(x, g.p, mem)[..0] == [];
    assert Lanes(Lanes([], g.p.size), g.p.lanes) == Lanes([], g.p.lanes);
  }

  lemma GoalIsPrepared(x: Inputs, g: GridProgram, mem: Memory)
    requires g.p.LoadFound() && Sized(x, g, mem)
    ensures Prepared(x, g.p, mem, GoalOf(x, g, mem))
  {
  }

  // --------------------------------- operations one after the other, abstractly

  /** The operations in order, each by `do`. */
  ghost function Fold<S>(do: (Op, S) -> S, ops: seq<Op>, s: S): S {
    if ops == [] then s else do(ops[|ops| - 1], Fold(do, ops[..|ops| - 1], s))
  }

  lemma FoldSnoc<S>(do: (Op, S) -> S, ops: seq<Op>, op: Op, s: S)
    ensures Fold(do, ops + [op], s) == do(op, Fold(do, ops, s))
  {
    assert (ops + [op])[..|ops|] == ops;
  }

  lemma {:induction false} FoldAppend<S>(do: (Op, S) -> S, a: seq<Op>, b: seq<Op>, s: S)
    ensures Fold(do, a + b, s) == Fold(do, b, Fold(do, a, s))
    decreases |b|
  {
    if b == [] {
      assert a + b == a;
    } else {
      FoldAppend(do, a, b[..|b| - 1], s);
      assert (a + b)[..|a + b| - 1] == a + b[..|b| - 1];
    }
  }

  /** An invariant of states, positions and stored slots that every operation
      keeps: a token advances the position, a store records `at` the position. */
  ghost predicate OpsKeep<S(!new)>(do: (Op, S) -> S, inv: (map<int, Vec>, S, nat) -> bool, at: nat -> Vec, limit: nat) {
    && (forall st, s, d: nat {:trigger do(ScanAt(d), s), inv(st, s, d)} ::
          d < limit && inv(st, s, d) ==> inv(st, do(ScanAt(d), s), d + 1))
    && (forall st, s, d: nat, slot {:trigger do(StoreTo(slot), s), inv(st, s, d)} ::
          d <= limit && inv(st, s, d) ==> inv(st[slot := at(d)], do(StoreTo(slot), s), d))
  }

  lemma {:induction false} TokensKeep<S(!new)>(do: (Op, S) -> S, inv: (map<int, Vec>, S, nat) -> bool, at: nat -> Vec,
                                         limit: nat, st: map<int, Vec>, s: S, done: nat, count: nat)
    requires OpsKeep(do, inv, at, limit) && done + count <= limit && inv(st, s, done)
    ensures inv(st, Fold(do, TokenOps(done, count), s), done + count)
    decreases count
  {
    if count > 0 {
      var before := TokenOps(done, count - 1);
      var mid := Fold(do, before, s);
      TokensKeep(do, inv, at, limit, st, s, done, count - 1);
      assert TokenOps(done, count) == before + [ScanAt(done + count - 1)];
      FoldSnoc(do, before, ScanAt(done + count - 1), s);
      assert inv(st, mid, done + count - 1);
    }
  }

  /** One chunk: its tokens, then its store. */
  lemma ChunkKeeps<S(!new)>(do: (Op, S) -> S, inv: (map<int, Vec>, S, nat) -> bool, at: nat -> Vec,
                      limit: nat, st: map<int, Vec>, s: S, done: nat, count: nat, slot: int)
    requires OpsKeep(do, inv, at, limit) && done + count <= limit && inv(st, s, done)
    ensures inv(st[slot := at(done + count)], Fold(do, TokenOps(done, count) + [StoreTo(slot)], s), done + count)
  {
    TokensKeep(do, inv, at, limit, st, s, done, count);
    FoldSnoc(do, TokenOps(done, count), StoreTo(slot), s);
  }

  /** A chunk as a token count and the slot it stores to. */
  datatype Chunk = Chunk(count: nat, slot: int)

  ghost function CountOf(plan: seq<Chunk>): nat {
    if plan == [] then 0 else CountOf(plan[..|plan| - 1]) + plan[|plan| - 1].count
  }

  ghost function OpsOf(plan: seq<Chunk>): seq<Op> {
    if plan == [] then []
    else
      var front, last := plan[..|plan| - 1], plan[|plan| - 1];
      OpsOf(front) + (TokenOps(CountOf(front), last.count) + [StoreTo(last.slot)])
  }

  ghost function StoredOf(at: nat -> Vec, plan: seq<Chunk>): map<int, Vec> {
    if plan == [] then map[] else StoredOf(at, plan[..|plan| - 1])[plan[|plan| - 1].slot := at(CountOf(plan))]
  }

  lemma {:induction false} PlanKeeps<S(!new)>(do: (Op, S) -> S, inv: (map<int, Vec>, S, nat) -> bool, at: nat -> Vec,
                                        limit: nat, plan: seq<Chunk>, s: S)
    requires OpsKeep(do, inv, at, limit) && CountOf(plan) <= limit && inv(map[], s, 0)
    ensures inv(StoredOf(at, plan), Fold(do, OpsOf(plan), s), CountOf(plan))
    decreases |plan|
  {
    if plan != [] {
      var front, last := plan[..|plan| - 1], plan[|plan| - 1];
      PlanKeeps(do, inv, at, limit, front, s);
      ChunkKeeps(do, inv, at, limit, StoredOf(at, front), Fold(do, OpsOf(front), s), CountOf(front), last.count, last.slot);
      FoldAppend(do, OpsOf(front), TokenOps(CountOf(front), last.count) + [StoreTo(last.slot)], s);
    }
  }

  ghost function PlanOf(p: Program, n: nat): (plan: seq<Chunk>)
    requires p.SlotsFound() && n <= |p.Chunks()|
    ensures |plan| == n
  {
    if n == 0 then [] else PlanOf(p, n - 1) + [Chunk(p.Chunks()[n - 1], StoreSlot(p, n - 1))]
  }

  ghost function StateAtEnd(p: Program, start: Vec, tokens: seq<Token>): nat -> Vec {
    (d: nat) => if d <= |tokens| then StateAfter(p.k, start, tokens[..d]) else []
  }

  lemma {:induction false} PlanCounts(p: Program, n: nat)
    requires p.SlotsFound() && n <= |p.Chunks()|
    ensures CountOf(PlanOf(p, n)) == Total(p.Chunks()[..n]) <= Total(p.Chunks())
  {
    TotalGrows(p.Chunks(), n);
    if n > 0 {
      PlanCounts(p, n - 1);
      assert PlanOf(p, n)[..n - 1] == PlanOf(p, n - 1);
      assert p.Chunks()[..n][..n - 1] == p.Chunks()[..n - 1];
    }
  }

  lemma {:induction false} PlanOps(p: Program, n: nat)
    requires p.SlotsFound() && n <= |p.Chunks()|
    ensures OpsOf(PlanOf(p, n)) == ChunkOps(p, n)
  {
    if n > 0 {
      PlanOps(p, n - 1);
      PlanCounts(p, n - 1);
      assert PlanOf(p, n)[..n - 1] == PlanOf(p, n - 1);
    }
  }

  lemma {:induction false} PlanStates(p: Program, start: Vec, tokens: seq<Token>, n: nat)
    requires p.SlotsFound() && n <= |p.Chunks()| && |tokens| == Total(p.Chunks())
    ensures StoredOf(StateAtEnd(p, start, tokens), PlanOf(p, n)) == StatesAfter(p, start, tokens, n)
  {
    if n > 0 {
      PlanStates(p, start, tokens, n - 1);
      PlanCounts(p, n);
      assert PlanOf(p, n)[..n - 1] == PlanOf(p, n - 1);
    }
  }

  // -------------------------------------------------- the recurrence is reached

  ghost function Doing(x: Inputs, g: GridProgram): (Op, Pair) -> Pair
    requires g.p.LoadFound()
  {
    (op: Op, s: Pair) => DoOp(x, g, op, s)
  }

  lemma {:induction false} RunOpsIsFold(x: Inputs, g: GridProgram, ops: seq<Op>, s: Pair)
    requires g.p.LoadFound()
    ensures RunOps(x, g, ops, s) == Fold(Doing(x, g), ops, s)
  {
    if ops != [] {
      RunOpsIsFold(x, g, ops[..|ops| - 1], s);
    }
  }

  ghost function Reaching(g: GridProgram, goal: Goal, mem: Memory): (map<int, Vec>, Pair, nat) -> bool {
    (st: map<int, Vec>, s: Pair, d: nat) => d <= |goal.tokens| && ReachedWith(g, goal, st, mem, s, d)
  }

  /** Every operation of the kernel keeps what has been reached. */
  lemma ScanOpsKeep(x: Inputs, g: GridProgram, goal: Goal, mem: Memory)
    requires g.p.LoadFound() && Prepared(x, g.p, mem, goal)
    ensures OpsKeep(Doing(x, g), Reaching(g, goal, mem), StateAtEnd(g.p, goal.start, goal.tokens), |goal.tokens|)
  {
    forall st, s, d: nat | d < |goal.tokens| && ReachedWith(g, goal, st, mem, s, d)
      ensures ReachedWith(g, goal, st, mem, DoOp(x, g, ScanAt(d), s), d + 1)
    {
      TokenReached(x, g, goal, st, mem, s, d);
    }
    forall st, s, d: nat, slot | d <= |goal.tokens| && ReachedWith(g, goal, st, mem, s, d)
      ensures ReachedWith(g, goal, st[slot := StateAfter(g.p.k, goal.start, goal.tokens[..d])], mem, DoOp(x, g, StoreTo(slot), s), d)
    {
      StoreReached(x, g, goal, st, mem, s, d, slot);
    }
  }

  /** A program on its own leaves the outputs of the recurrence in its rows and
      the states at the chunk ends in its slots. */
  lemma AloneIsTheRecurrence(x: Inputs, g: GridProgram, mem: Memory)
    requires g.p.SlotsFound() && !g.p.Skipped() && Sized(x, g, mem)
    ensures Reached(g, GoalOf(x, g, mem), mem, RunOps(x, g, Ops(g), Pair([], mem)), Total(g.p.Chunks()), |g.p.Chunks()|)
  {
    var p, n, goal := g.p, |g.p.Chunks()|, GoalOf(x, g, mem);
    var do, inv, loaded := Doing(x, g), Reaching(g, goal, mem), DoOp(x, g, LoadState, Pair([], mem));
    GoalIsPrepared(x, g, mem);
    ScanOpsKeep(x, g, goal, mem);
    LoadReached(x, g, mem);
    assert inv(map[], loaded, 0);
    PlanCounts(p, n);
    PlanOps(p, n);
    PlanStates(p, goal.start, goal.tokens, n);
    PlanKeeps(do, inv, StateAtEnd(p, goal.start, goal.tokens), |goal.tokens|, PlanOf(p, n), loaded);
    RunOpsIsFold(x, g, ChunkOps(p, n), loaded);
    assert p.Chunks()[..n] == p.Chunks();
    RunOpsAppend(x, g, [LoadState], ChunkOps(p, n), Pair([], mem));
    assert [LoadState][..0] == [];
  }

  /** The rows hold all outputs, and the slots all chunk-end states. */
  ghost predicate HoldsScan(g: GridProgram, goal: Goal, mem: Memory)
    requires g.p.SlotsFound() && |goal.outs| == |goal.gateds| == |goal.tokens| == Total(g.p.Chunks())
  {
    var p, n := g.p, |goal.tokens|;
    var stored := StatesAfter(p, goal.start, goal.tokens, |p.Chunks()|);
    && (forall a: nat :: p.deltaBase <= a < p.deltaBase + n ==> Read(mem, DeltaCell(a)) == [goal.outs[a - p.deltaBase]])
    && (p.hasZ ==>
          forall a: nat :: p.zBase <= a < p.zBase + n ==> Read(mem, ZCell(a)) == [goal.gateds[a - p.zBase]])
    && (forall slot :: slot in stored ==> Read(mem, StateCell(slot, g.dim)) == stored[slot])
  }

  /** It is enough to look at the cells the program owns. */
  lemma HoldsInOwnCells(g: GridProgram, goal: Goal, mem: Memory, m: Memory, m': Memory)
    requires g.p.SlotsFound() && !g.p.Skipped()
    requires |goal.outs| == |goal.gateds| == |goal.tokens| == Total(g.p.Chunks())
    requires RowsReached(g.p, goal, mem, m, |goal.tokens|)
    requires SlotsReached(StatesAfter(g.p, goal.start, goal.tokens, |g.p.Chunks()|), g.dim, mem, m)
    requires forall cell :: Owns(g, cell) ==> Read(m', cell) == Read(m, cell)
    ensures HoldsScan(g, goal, m')
  {
    var p := g.p;
    var stored := StatesAfter(p, goal.start, goal.tokens, |p.Chunks()|);
    forall slot | slot in stored ensures Read(m', StateCell(slot, g.dim)) == stored[slot] {
      StoredSlots(p, goal.start, goal.tokens, |p.Chunks()|, slot);
      assert Owns(g, StateCell(slot, g.dim));
    }
  }

  /** Every finished schedule of the grid computes the scan: for each program
      that is not padding, its rows hold the outputs of the plain recurrence over
      the tokens that were in memory, and its slots hold the chunk-end states. */
  lemma LaunchComputesTheScan(x: Inputs, gs: seq<GridProgram>, mem: Memory, run: seq<Config>, i: nat)
    requires Launchable(gs) && Separate(gs) && IsSchedule(x, gs, mem, run) && AllDone(gs, run[|run| - 1])
    requires i < |gs| && !gs[i].p.Skipped() && Sized(x, gs[i], mem)
    ensures HoldsScan(gs[i], GoalOf(x, gs[i], mem), run[|run| - 1].mem)
  {
    LaunchResult(x, gs, mem, run);
    AloneIsTheRecurrence(x, gs[i], mem);
    HoldsInOwnCells(gs[i], GoalOf(x, gs[i], mem), mem,
                    RunOps(x, gs[i], Ops(gs[i]), Pair([], mem)).mem, run[|run| - 1].mem);
  }

  lemma {:induction false} StoredSlots(p: Program, start: Vec, tokens: seq<Token>, n: nat, slot: int)
    requires p.SlotsFound() && n <= |p.Chunks()| && |tokens| == Total(p.Chunks())
    requires slot in StatesAfter(p, start, tokens, n)
    ensures exists c :: 0 <= c < n && slot == StoreSlot(p, c)
  {
    if slot != StoreSlot(p, n - 1) {
      StoredSlots(p, start, tokens, n - 1, slot);
    }
  }
}
