/** What a launch of the selective scan leaves in memory, in terms of the tensors it
    was given: the closed form of every output and every cached state. */
module ScanResult {

  import opened ScanRecurrence
  import opened ScanClosedForm
  import opened ScanKernel
  import opened PrefixCache
  import opened ScanLaunch
  import opened ScanGrid

  /** Where token `k` of a row lies in a tensor: row `row` of sequence `i`. Packed
      sequences follow one another, padded ones have their own stride. */
  function Address(l: GoodLaunch, s: Strides, i: nat, row: nat, k: nat): nat
    requires i < l.batch
  {
    match l.layout
    case Packed(starts) => row * s.dim + starts[i] * s.batch + k
    case Padded(_) => i * s.batch + row * s.dim + k
  }

  lemma AddressIs(l: GoodLaunch, s: Strides, i: nat, row: nat, k: nat)
    requires i < l.batch
    ensures Address(l, s, i, row, k) == Base(l, s, i, row) + k
  {
  }

  /** The token that the tensors hold at position `k`. Channels of a group share b
      and c. Without z the gate is not used. */
  ghost predicate IsToken(l: GoodLaunch, x: Inputs, mem: Memory, i: nat, d: nat, k: nat, t: Token)
    requires i < l.batch && d < l.dim
  {
    var group := d / l.ratio;
    && t.u == At(x.u, Address(l, l.u, i, d, k))
    && t.delta == Scalar(mem, DeltaCell(Address(l, l.delta, i, d, k)))
    && t.z == (if l.hasZ then Scalar(mem, ZCell(Address(l, l.z, i, d, k))) else 0.0)
    && Address(l, l.b, i, group, k) < |x.b| && t.b == x.b[Address(l, l.b, i, group, k)]
    && Address(l, l.c, i, group, k) < |x.c| && t.c == x.c[Address(l, l.c, i, group, k)]
  }

  ghost predicate AreTokens(l: GoodLaunch, x: Inputs, mem: Memory, i: nat, d: nat, tokens: seq<Token>)
    requires i < l.batch && d < l.dim
  {
    && |tokens| == SeqLen(l, i)
    && forall k {:trigger tokens[k]} :: 0 <= k < |tokens| ==> IsToken(l, x, mem, i, d, k, tokens[k])
  }

  lemma TokenIsProgram(l: GoodLaunch, x: Inputs, mem: Memory, i: nat, d: nat, k: nat, t: Token)
    requires i < l.batch && d < l.dim && IsToken(l, x, mem, i, d, k, t)
    ensures TokenIn(x, ProgramAt(l, i, d), mem, k) == t
  {
    AddressIs(l, l.u, i, d, k);
    AddressIs(l, l.delta, i, d, k);
    AddressIs(l, l.z, i, d, k);
    AddressIs(l, l.b, i, d / l.ratio, k);
    AddressIs(l, l.c, i, d / l.ratio, k);
  }

  /** They are the tokens of the program. */
  lemma TokensAreProgram(l: GoodLaunch, x: Inputs, mem: Memory, i: nat, d: nat, tokens: seq<Token>)
    requires i < l.batch && d < l.dim && AreTokens(l, x, mem, i, d, tokens)
    ensures TokensIn(x, ProgramAt(l, i, d), mem) == tokens
  {
    TokensOfProgram(l, i, d);
    var all := TokensIn(x, ProgramAt(l, i, d), mem);
    forall k | 0 <= k < |tokens| ensures all[k] == tokens[k] {
      TokenIsProgram(l, x, mem, i, d, k, tokens[k]);
    }
  }

  /** Every delta stands for one step size. */
  lemma StepSizesExist(ch: Channel, tokens: seq<Token>) returns (ds: seq<real>)
    ensures AreStepSizes(ch, tokens, ds)
  {
    ds := seq(|tokens|, k requires 0 <= k < |tokens| => StepSize(ch, tokens[k].delta));
    forall k | 0 <= k < |tokens| ensures IsStepSize(ch, tokens[k].delta, ds[k]) {
      IsItsStepSize(ch, tokens[k].delta);
    }
  }

  lemma IsItsStepSize(ch: Channel, delta: real)
    ensures IsStepSize(ch, delta, StepSize(ch, delta))
  {
    var x := if ch.hasBias then delta + ch.bias else delta;
    assert 1.0 + ch.exp(x) == ch.exp(x) + 1.0;
  }

  /** A slot that no later chunk stores over holds the state at its chunk's end. */
  lemma {:induction false} KeptState(p: Program, start: Vec, tokens: seq<Token>, c: nat, n: nat)
    requires p.SlotsFound() && c < n <= |p.Chunks()| && |tokens| == Total(p.Chunks()) && KeptSlot(p, c)
    ensures ChunkEnd(p, c) <= |tokens|
    ensures var stored := StatesAfter(p, start, tokens, n);
            StoreSlot(p, c) in stored && stored[StoreSlot(p, c)] == StateAfter(p.k, start, tokens[..ChunkEnd(p, c)])
  {
    TotalGrows(p.Chunks(), c + 1);
    if n > c + 1 {
      KeptState(p, start, tokens, c, n - 1);
      assert StoreSlot(p, n - 1) != StoreSlot(p, c);
    }
  }

  /** The state that a sequence starts from: the cached one, or zeros. */
  ghost predicate IsStart(l: GoodLaunch, mem: Memory, i: nat, d: nat, start: Vec)
    requires i < l.batch && d < l.dim && ProgramAt(l, i, d).LoadFound()
  {
    && |start| == l.size
    && (l.hasInit[i] ==> start == Read(mem, StateCell(ProgramAt(l, i, d).LoadSlot(), d)))
    && (!l.hasInit[i] ==> forall j :: 0 <= j < l.size ==> start[j] == 0.0)
  }

  lemma StartIsIn(l: GoodLaunch, mem: Memory, i: nat, d: nat, start: Vec)
    requires i < l.batch && d < l.dim && ProgramAt(l, i, d).LoadFound() && IsStart(l, mem, i, d, start)
    ensures StartIn(GridProgram(ProgramAt(l, i, d), d), mem) == start
  {
  }

  /** What was asked of one sequence and channel, and what memory holds of it. */
  ghost predicate HoldsClosedForm(l: GoodLaunch, i: nat, d: nat, start: Vec, tokens: seq<Token>, ds: seq<real>, mem: Memory)
    requires i < l.batch && d < l.dim && |start| == l.size && |tokens| == |ds| == SeqLen(l, i)
    requires ProgramAt(l, i, d).SlotsFound()
  {
    && (forall k: nat {:trigger Address(l, l.delta, i, d, k)} :: k < |tokens| ==>
          Read(mem, DeltaCell(Address(l, l.delta, i, d, k))) == [Output(l.channels[d], start, tokens, ds, k)])
    && (l.hasZ ==>
          forall k: nat {:trigger Address(l, l.z, i, d, k)} :: k < |tokens| ==>
            HoldsGated(l.channels[d], Output(l.channels[d], start, tokens, ds, k), tokens[k].z, Read(mem, ZCell(Address(l, l.z, i, d, k)))))
    && (forall c: nat {:trigger HoldsState(l, i, d, start, tokens, ds, mem, c)} ::
          c < |ProgramAt(l, i, d).Chunks()| && KeptSlot(ProgramAt(l, i, d), c) ==>
            HoldsState(l, i, d, start, tokens, ds, mem, c))
  }

  ghost predicate HoldsGated(ch: Channel, out: real, z: real, cell: Vec) {
    |cell| == 1 && IsGated(ch, out, z, cell[0])
  }

  /** The slot of chunk `c` holds, lane by lane, the state at the chunk's end. */
  ghost predicate HoldsState(l: GoodLaunch, i: nat, d: nat, start: Vec, tokens: seq<Token>, ds: seq<real>, mem: Memory, c: nat)
    requires i < l.batch && d < l.dim && |start| == l.size && |tokens| == |ds|
    requires ProgramAt(l, i, d).SlotsFound() && c < |ProgramAt(l, i, d).Chunks()|
  {
    var end, v := ChunkEnd(ProgramAt(l, i, d), c), Read(mem, StateCell(StoreSlot(ProgramAt(l, i, d), c), d));
    && end <= |tokens| && |v| == l.size
    && forall j :: 0 <= j < l.size ==> v[j] == Lane(l.channels[d], start[j], tokens[..end], ds[..end], j)
  }

  lemma CellsHeld(g: GridProgram, goal: Goal, mem: Memory, k: nat)
    requires g.p.SlotsFound() && |goal.outs| == |goal.gateds| == |goal.tokens| == Total(g.p.Chunks()) && k < |goal.tokens|
    requires HoldsScan(g, goal, mem)
    ensures Read(mem, DeltaCell(g.p.deltaBase + k)) == [goal.outs[k]]
    ensures g.p.hasZ ==> Read(mem, ZCell(g.p.zBase + k)) == [goal.gateds[k]]
  {
  }

  lemma ProgramHolds(ch: Channel, g: GridProgram, start: Vec, tokens: seq<Token>, ds: seq<real>, goal: Goal, mem: Memory, k: nat,
                     deltaAt: nat, zAt: nat)
    requires g.p.k == ArithmeticOf(ch, |ch.a|) && |start| == |ch.a| && k < |tokens| && AreStepSizes(ch, tokens, ds)
    requires goal == Goal(start, tokens, Outs(g.p.k, start, tokens), Gateds(g.p.k, start, tokens))
    requires g.p.SlotsFound() && |tokens| == Total(g.p.Chunks()) && HoldsScan(g, goal, mem)
    requires deltaAt == g.p.deltaBase + k && zAt == g.p.zBase + k
    ensures Read(mem, DeltaCell(deltaAt)) == [Output(ch, start, tokens, ds, k)]
    ensures g.p.hasZ ==> HoldsGated(ch, Output(ch, start, tokens, ds, k), tokens[k].z, Read(mem, ZCell(zAt)))
  {
    CellsHeld(g, goal, mem, k);
    OutputIsClosedForm(ch, start, tokens, ds, k);
    GatedIsClosedForm(ch, start, tokens, ds, k);
  }

  lemma OutputsHeld(l: GoodLaunch, i: nat, d: nat, start: Vec, tokens: seq<Token>, ds: seq<real>, goal: Goal, mem: Memory, k: nat)
    requires i < l.batch && d < l.dim && |start| == l.size && k < |tokens| && AreStepSizes(l.channels[d], tokens, ds)
    requires goal == Goal(start, tokens, Outs(ProgramAt(l, i, d).k, start, tokens), Gateds(ProgramAt(l, i, d).k, start, tokens))
    requires ProgramAt(l, i, d).SlotsFound() && |tokens| == Total(ProgramAt(l, i, d).Chunks())
    requires HoldsScan(GridProgram(ProgramAt(l, i, d), d), goal, mem)
    ensures Read(mem, DeltaCell(Address(l, l.delta, i, d, k))) == [Output(l.channels[d], start, tokens, ds, k)]
    ensures l.hasZ ==>
              HoldsGated(l.channels[d], Output(l.channels[d], start, tokens, ds, k), tokens[k].z, Read(mem, ZCell(Address(l, l.z, i, d, k))))
  {
    AddressIs(l, l.delta, i, d, k);
    AddressIs(l, l.z, i, d, k);
    ProgramHolds(l.channels[d], GridProgram(ProgramAt(l, i, d), d), start, tokens, ds, goal, mem, k,
                 Address(l, l.delta, i, d, k), Address(l, l.z, i, d, k));
  }

  lemma StateHeld(l: GoodLaunch, i: nat, d: nat, start: Vec, tokens: seq<Token>, ds: seq<real>, goal: Goal, mem: Memory, c: nat)
    requires i < l.batch && d < l.dim && |start| == l.size && AreStepSizes(l.channels[d], tokens, ds)
    requires goal == Goal(start, tokens, Outs(ProgramAt(l, i, d).k, start, tokens), Gateds(ProgramAt(l, i, d).k, start, tokens))
    requires ProgramAt(l, i, d).SlotsFound() && |tokens| == Total(ProgramAt(l, i, d).Chunks())
    requires HoldsScan(GridProgram(ProgramAt(l, i, d), d), goal, mem)
    requires c < |ProgramAt(l, i, d).Chunks()| && KeptSlot(ProgramAt(l, i, d), c)
    ensures HoldsState(l, i, d, start, tokens, ds, mem, c)
  {
    var p, ch := ProgramAt(l, i, d), l.channels[d];
    KeptState(p, start, tokens, c, |p.Chunks()|);
    var end := ChunkEnd(p, c);
    StateSize(ch, start, tokens[..end]);
    forall j | 0 <= j < l.size
      ensures StateAfter(p.k, start, tokens[..end])[j] == Lane(ch, start[j], tokens[..end], ds[..end], j)
    {
      StateIsClosedForm(ch, start, tokens[..end], ds[..end], j);
    }
  }

  lemma ScanIsClosedForm(l: GoodLaunch, i: nat, d: nat, start: Vec, tokens: seq<Token>, ds: seq<real>, goal: Goal, mem: Memory)
    requires i < l.batch && d < l.dim && |start| == l.size && |tokens| == SeqLen(l, i) && AreStepSizes(l.channels[d], tokens, ds)
    requires goal == Goal(start, tokens, Outs(ProgramAt(l, i, d).k, start, tokens), Gateds(ProgramAt(l, i, d).k, start, tokens))
    requires ProgramAt(l, i, d).SlotsFound() && |tokens| == Total(ProgramAt(l, i, d).Chunks())
    requires HoldsScan(GridProgram(ProgramAt(l, i, d), d), goal, mem)
    ensures HoldsClosedForm(l, i, d, start, tokens, ds, mem)
  {
    forall k: nat {:trigger Address(l, l.delta, i, d, k)} | k < |tokens|
      ensures Read(mem, DeltaCell(Address(l, l.delta, i, d, k))) == [Output(l.channels[d], start, tokens, ds, k)]
    {
      OutputsHeld(l, i, d, start, tokens, ds, goal, mem, k);
    }
    forall k: nat {:trigger Address(l, l.z, i, d, k)} | k < |tokens| && l.hasZ
      ensures HoldsGated(l.channels[d], Output(l.channels[d], start, tokens, ds, k), tokens[k].z, Read(mem, ZCell(Address(l, l.z, i, d, k))))
    {
      OutputsHeld(l, i, d, start, tokens, ds, goal, mem, k);
    }
    forall c: nat {:trigger HoldsState(l, i, d, start, tokens, ds, mem, c)} |
      c < |ProgramAt(l, i, d).Chunks()| && KeptSlot(ProgramAt(l, i, d), c)
      ensures HoldsState(l, i, d, start, tokens, ds, mem, c)
    {
      StateHeld(l, i, d, start, tokens, ds, goal, mem, c);
    }
  }

  /** Every finished schedule of the launch leaves, for every sequence and channel
      that is not padding, the closed form of the scan of the tokens it was given:
      outputs in place of delta, gated outputs in place of z, and in the slots the
      states at the chunk ends. */
  lemma LaunchLeavesClosedForm(l: GoodLaunch, x: Inputs, mem: Memory, run: seq<Config>, i: nat, d: nat,
                               start: Vec, tokens: seq<Token>, ds: seq<real>)
    requires Apart(l) && i < l.batch && d < l.dim
    requires Launchable(Grid(l)) && IsSchedule(x, Grid(l), mem, run) && AllDone(Grid(l), run[|run| - 1])
    requires ProgramAt(l, i, d).SlotsFound() && !ProgramAt(l, i, d).Skipped() && InputsFit(l, x, mem, i, d)
    requires IsStart(l, mem, i, d, start) && AreTokens(l, x, mem, i, d, tokens) && AreStepSizes(l.channels[d], tokens, ds)
    ensures HoldsClosedForm(l, i, d, start, tokens, ds, run[|run| - 1].mem)
  {
    var g := GridProgram(ProgramAt(l, i, d), d);
    GridComputesTheScan(l, x, mem, run, i, d);
    TokensAreProgram(l, x, mem, i, d, tokens);
    StartIsIn(l, mem, i, d, start);
    TokensOfProgram(l, i, d);
    ScanIsClosedForm(l, i, d, start, tokens, ds, GoalOf(x, g, mem), run[|run| - 1].mem);
  }

  // ------------------------------------------------ one program and its launch

  /** The arrays of a program on its own, as cells of memory. */
  ghost predicate SameMemory(x: Inputs, g: GridProgram, mem: Memory, delta: seq<real>, z: seq<real>, column: seq<Vec>) {
    && (forall a: nat {:trigger delta[a]} :: a < |delta| ==> Read(mem, DeltaCell(a)) == [delta[a]])
    && (forall a: nat {:trigger z[a]} :: a < |z| ==> Read(mem, ZCell(a)) == [z[a]])
    && (forall slot: nat {:trigger column[slot]} :: slot < |column| ==> Read(mem, StateCell(slot, g.dim)) == column[slot])
  }

  /** The program on its own arrays reads the tokens, and starts from the state,
      that it reads and starts from in a launch. */
  lemma SameProgramBothWays(x: Inputs, g: GridProgram, mem: Memory, delta: seq<real>, z: seq<real>, column: seq<Vec>)
    requires Fits(g.p, x.u, x.b, x.c, delta, z, column) && SameMemory(x, g, mem, delta, z, column)
    ensures Tokens(g.p, x.u, x.b, x.c, delta, z) == TokensIn(x, g.p, mem)
    ensures StartState(g.p, column) == StartIn(g, mem)
  {
    var n := Total(g.p.Chunks());
    forall k | 0 <= k < n ensures TokenAt(g.p, x.u, x.b, x.c, delta, z, n, k) == TokenIn(x, g.p, mem, k) {
      assert delta[g.p.deltaBase + k] == Scalar(mem, DeltaCell(g.p.deltaBase + k));
      assert g.p.hasZ ==> z[g.p.zBase + k] == Scalar(mem, ZCell(g.p.zBase + k));
    }
    assert g.p.hasInit ==> column[g.p.LoadSlot()] == Read(mem, StateCell(g.p.LoadSlot(), g.dim));
  }
}
