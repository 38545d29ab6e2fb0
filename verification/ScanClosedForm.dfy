/** What the selective scan computes, written out without the recurrence: each lane
    of the state as a sum over the tokens, each output as a sum over the lanes. */
module ScanClosedForm {

  import opened ScanRecurrence

  function Times(x: real, y: real): real {
    x * y
  }

  function Product(xs: seq<real>): real {
    if xs == [] then 1.0 else Times(Product(xs[..|xs| - 1]), xs[|xs| - 1])
  }

  function Sum(xs: seq<real>): real {
    if xs == [] then 0.0 else Sum(xs[..|xs| - 1]) + xs[|xs| - 1]
  }

  /** The step size that a delta stands for: with the bias added, and through
      softplus, which is the identity above 20. */
  ghost predicate IsStepSize(ch: Channel, delta: real, d: real) {
    var x := if ch.hasBias then delta + ch.bias else delta;
    && (ch.useSoftplus && x <= 20.0 ==> d == ch.log(1.0 + ch.exp(x)))
    && (ch.useSoftplus && x > 20.0 ==> d == x)
    && (!ch.useSoftplus ==> d == x)
  }

  ghost predicate AreStepSizes(ch: Channel, tokens: seq<Token>, ds: seq<real>) {
    |ds| == |tokens| && forall t :: 0 <= t < |tokens| ==> IsStepSize(ch, tokens[t].delta, ds[t])
  }

  /** By how much lane `i` decays in a step of size `d`. */
  function Decay(ch: Channel, d: real, i: nat): real
    requires i < |ch.a|
  {
    ch.exp(d * At(ch.a, i))
  }

  /** What a token adds to lane `i`. */
  function Share(t: Token, d: real, i: nat): real {
    d * t.u * At(t.b, i)
  }

  function Decays(ch: Channel, ds: seq<real>, i: nat): (es: seq<real>)
    requires i < |ch.a|
    ensures |es| == |ds|
  {
    seq(|ds|, t requires 0 <= t < |ds| => Decay(ch, ds[t], i))
  }

  function Added(tokens: seq<Token>, ds: seq<real>, i: nat): (xs: seq<real>)
    requires |ds| == |tokens|
    ensures |xs| == |tokens|
  {
    seq(|tokens|, s requires 0 <= s < |tokens| => Share(tokens[s], ds[s], i))
  }

  /** What was added at each step, decayed by all steps after it. */
  function Decayed(es: seq<real>, xs: seq<real>): (ys: seq<real>)
    requires |es| == |xs|
    ensures |ys| == |xs|
  {
    seq(|xs|, s requires 0 <= s < |xs| => Times(xs[s], Product(es[s + 1..])))
  }

  /** Lane `i` after all tokens: the start, decayed by all of them, and what each
      of them added, decayed by those after it. */
  function Lane(ch: Channel, start: real, tokens: seq<Token>, ds: seq<real>, i: nat): real
    requires i < |ch.a| && |ds| == |tokens|
  {
    Unrolled(start, Decays(ch, ds, i), Added(tokens, ds, i))
  }

  function Unrolled(start: real, es: seq<real>, xs: seq<real>): real
    requires |es| == |xs|
  {
    Combine(start, Product(es), Sum(Decayed(es, xs)))
  }

  function Combine(start: real, decay: real, added: real): real {
    Times(start, decay) + added
  }

  function Weighted(ch: Channel, start: Vec, tokens: seq<Token>, ds: seq<real>, c: Vec): (ws: seq<real>)
    requires |tokens| == |ds| && |start| == |ch.a|
    ensures |ws| == |ch.a|
  {
    seq(|ch.a|, i requires 0 <= i < |ch.a| => Times(Lane(ch, start[i], tokens, ds, i), At(c, i)))
  }

  /** D times the input, which goes around the state. */
  function Skip(ch: Channel, t: Token): real {
    if ch.hasD then ch.d * t.u else 0.0
  }

  /** The output at position `n`: the lanes weighted by c, and D times the input. */
  function Output(ch: Channel, start: Vec, tokens: seq<Token>, ds: seq<real>, n: nat): real
    requires n < |tokens| == |ds| && |start| == |ch.a|
  {
    Sum(Weighted(ch, start, tokens[..n + 1], ds[..n + 1], tokens[n].c)) + Skip(ch, tokens[n])
  }

  /** The gated output is out * z / (1 + exp(-z)). */
  ghost predicate IsGated(ch: Channel, out: real, z: real, gated: real) {
    1.0 + ch.exp(-z) != 0.0 ==> gated * (1.0 + ch.exp(-z)) == out * z
  }

  // ------------------------------------------------------------- one more token

  /** A lane decays and something is added. */
  function Advance(e: real, lane: real, x: real): real {
    Times(lane, e) + x
  }

  lemma ProductSnoc(xs: seq<real>, x: real)
    ensures Product(xs + [x]) == Times(Product(xs), x)
  {
    assert (xs + [x])[..|xs|] == xs;
  }

  lemma Reassociate(x: real, y: real, z: real)
    ensures Times(x, Times(y, z)) == Times(Times(x, y), z)
  {
  }

  ghost predicate Scaled(xs: seq<real>, ys: seq<real>, k: real) {
    |xs| == |ys| && forall i {:trigger ys[i]} :: 0 <= i < |xs| ==> ys[i] == Times(xs[i], k)
  }

  lemma {:induction false} SumScales(xs: seq<real>, ys: seq<real>, k: real)
    requires Scaled(xs, ys, k)
    ensures Sum(ys) == Times(Sum(xs), k)
  {
    if xs != [] {
      SumScales(xs[..|xs| - 1], ys[..|ys| - 1], k);
      Factor(Sum(xs[..|xs| - 1]), xs[|xs| - 1], k);
    }
  }

  lemma DecaysOnce(es: seq<real>, xs: seq<real>, e: real, x: real, s: nat)
    requires |es| == |xs| && s < |xs|
    ensures Decayed(es + [e], xs + [x])[s] == Times(Decayed(es, xs)[s], e)
  {
    assert (es + [e])[s + 1..] == es[s + 1..] + [e];
    ProductSnoc(es[s + 1..], e);
    Reassociate(xs[s], Product(es[s + 1..]), e);
  }

  lemma AllDecay(es: seq<real>, xs: seq<real>, e: real, x: real)
    requires |es| == |xs|
    ensures Scaled(Decayed(es, xs), Decayed(es + [e], xs + [x])[..|xs|], e)
  {
    var ys, zs := Decayed(es, xs), Decayed(es + [e], xs + [x])[..|xs|];
    forall s {:trigger zs[s]} | 0 <= s < |ys| ensures zs[s] == Times(ys[s], e) {
      assert zs[s] == Decayed(es + [e], xs + [x])[s];
      DecaysOnce(es, xs, e, x, s);
    }
  }

  lemma LastIsWhole(es: seq<real>, xs: seq<real>, e: real, x: real)
    requires |es| == |xs|
    ensures Decayed(es + [e], xs + [x])[|xs|] == x
  {
    assert (es + [e])[|xs| + 1..] == [];
  }

  lemma DecayedSnoc(es: seq<real>, xs: seq<real>, e: real, x: real)
    requires |es| == |xs|
    ensures Sum(Decayed(es + [e], xs + [x])) == Advance(e, Sum(Decayed(es, xs)), x)
  {
    AllDecay(es, xs, e, x);
    SumScales(Decayed(es, xs), Decayed(es + [e], xs + [x])[..|xs|], e);
    LastIsWhole(es, xs, e, x);
  }

  lemma Factor(x: real, y: real, k: real)
    ensures Times(x, k) + Times(y, k) == Times(x + y, k)
  {
  }

  lemma Distribute(start: real, p: real, e: real, sum: real, x: real)
    ensures Combine(start, Times(p, e), Advance(e, sum, x)) == Advance(e, Combine(start, p, sum), x)
  {
    Reassociate(start, p, e);
    assert e * (start * p + sum) == start * p * e + sum * e;
  }

  /** One more step decays what was there and adds its own. */
  lemma UnrolledSnoc(start: real, es: seq<real>, xs: seq<real>, e: real, x: real)
    requires |es| == |xs|
    ensures Unrolled(start, es + [e], xs + [x]) == Advance(e, Unrolled(start, es, xs), x)
  {
    ProductSnoc(es, e);
    DecayedSnoc(es, xs, e, x);
    Distribute(start, Product(es), e, Sum(Decayed(es, xs)), x);
  }

  lemma LaneSnoc(ch: Channel, start: real, tokens: seq<Token>, ds: seq<real>, t: Token, d: real, i: nat)
    requires i < |ch.a| && |ds| == |tokens|
    ensures Lane(ch, start, tokens + [t], ds + [d], i) == Advance(Decay(ch, d, i), Lane(ch, start, tokens, ds, i), Share(t, d, i))
  {
    DecaysSnoc(ch, ds, d, i);
    AddedSnoc(tokens, ds, t, d, i);
    UnrolledSnoc(start, Decays(ch, ds, i), Added(tokens, ds, i), Decay(ch, d, i), Share(t, d, i));
  }

  lemma DecaysSnoc(ch: Channel, ds: seq<real>, d: real, i: nat)
    requires i < |ch.a|
    ensures Decays(ch, ds + [d], i) == Decays(ch, ds, i) + [Decay(ch, d, i)]
  {
    assert Decays(ch, ds + [d], i)[|ds|] == Decay(ch, d, i);
  }

  lemma AddedSnoc(tokens: seq<Token>, ds: seq<real>, t: Token, d: real, i: nat)
    requires |ds| == |tokens|
    ensures Added(tokens + [t], ds + [d], i) == Added(tokens, ds, i) + [Share(t, d, i)]
  {
    assert Added(tokens + [t], ds + [d], i)[|ds|] == Share(t, d, i);
  }

  // ------------------------------------------------------- the recurrence is it

  lemma StepSizeIs(ch: Channel, delta: real, d: real)
    requires IsStepSize(ch, delta, d)
    ensures StepSize(ch, delta) == d
  {
    var x := if ch.hasBias then delta + ch.bias else delta;
    assert 1.0 + ch.exp(x) == ch.exp(x) + 1.0;
  }

  lemma LaneOfNothing(ch: Channel, start: real, i: nat)
    requires i < |ch.a|
    ensures Lane(ch, start, [], [], i) == start
  {
  }

  lemma StateNext(ch: Channel, start: Vec, front: seq<Token>, t: Token)
    ensures var k := ArithmeticOf(ch, |ch.a|);
            StateAfter(k, start, front + [t]) == k.step(StateAfter(k, start, front), t)
  {
    assert (front + [t])[..|front|] == front;
  }

  lemma LaneNext(ch: Channel, start: Vec, front: seq<Token>, ds: seq<real>, t: Token, d: real, i: nat)
    requires i < |ch.a| == |start| && |ds| == |front| && IsStepSize(ch, t.delta, d)
    requires |StateAfter(ArithmeticOf(ch, |ch.a|), start, front)| == |ch.a|
    requires StateAfter(ArithmeticOf(ch, |ch.a|), start, front)[i] == Lane(ch, start[i], front, ds, i)
    ensures |StateAfter(ArithmeticOf(ch, |ch.a|), start, front + [t])| == |ch.a|
    ensures StateAfter(ArithmeticOf(ch, |ch.a|), start, front + [t])[i] == Lane(ch, start[i], front + [t], ds + [d], i)
  {
    var state := StateAfter(ArithmeticOf(ch, |ch.a|), start, front);
    var e, x := Decay(ch, d, i), Share(t, d, i);
    StateNext(ch, start, front, t);
    calc {
      StateAfter(ArithmeticOf(ch, |ch.a|), start, front + [t])[i];
      { StepIs(ch, state, t, d, i); }
      Advance(e, state[i], x);
      Advance(e, Lane(ch, start[i], front, ds, i), x);
      { LaneSnoc(ch, start[i], front, ds, t, d, i); }
      Lane(ch, start[i], front + [t], ds + [d], i);
    }
  }

  /** The state of the recurrence, lane by lane. */
  lemma {:induction false} StateIsClosedForm(ch: Channel, start: Vec, tokens: seq<Token>, ds: seq<real>, i: nat)
    requires i < |ch.a| == |start| && AreStepSizes(ch, tokens, ds)
    ensures |StateAfter(ArithmeticOf(ch, |ch.a|), start, tokens)| == |ch.a|
    ensures StateAfter(ArithmeticOf(ch, |ch.a|), start, tokens)[i] == Lane(ch, start[i], tokens, ds, i)
  {
    if tokens == [] {
      LaneOfNothing(ch, start[i], i);
      assert ds == [];
    } else {
      var n := |tokens| - 1;
      StateIsClosedForm(ch, start, tokens[..n], ds[..n], i);
      LaneNext(ch, start, tokens[..n], ds[..n], tokens[n], ds[n], i);
      assert tokens[..n] + [tokens[n]] == tokens && ds[..n] + [ds[n]] == ds;
    }
  }

  lemma StepIs(ch: Channel, state: Vec, t: Token, d: real, i: nat)
    requires i < |ch.a| == |state| && IsStepSize(ch, t.delta, d)
    ensures ArithmeticOf(ch, |ch.a|).step(state, t)[i] == Advance(Decay(ch, d, i), state[i], Share(t, d, i))
  {
    StepSizeIs(ch, t.delta, d);
    assert ArithmeticOf(ch, |ch.a|).step(state, t) == StepLanes(ch, |ch.a|, state, t);
    assert StepLanes(ch, |ch.a|, state, t)[i] == StepLane(ch, d, state, t, i);
    StepLaneIs(ch, state, t, d, i);
  }

  lemma StepLaneIs(ch: Channel, state: Vec, t: Token, d: real, i: nat)
    requires i < |ch.a| == |state|
    ensures StepLane(ch, d, state, t, i) == Advance(Decay(ch, d, i), state[i], Share(t, d, i))
  {
    assert At(state, i) == state[i];
    AdvanceIs(Decay(ch, d, i), At(state, i), Share(t, d, i));
  }

  lemma AdvanceIs(e: real, lane: real, x: real)
    ensures e * lane + x == Advance(e, lane, x)
  {
  }

  lemma {:induction false} DotIsSum(x: Vec, y: Vec, weighted: seq<real>)
    requires |weighted| <= |x| && forall i :: 0 <= i < |weighted| ==> weighted[i] == Times(x[i], At(y, i))
    ensures Dot(|weighted|, x, y) == Sum(weighted)
  {
    if weighted != [] {
      DotIsSum(x, y, weighted[..|weighted| - 1]);
    }
  }

  lemma WeightedSum(ch: Channel, start: Vec, tokens: seq<Token>, ds: seq<real>, c: Vec)
    requires |start| == |ch.a| && AreStepSizes(ch, tokens, ds)
    ensures Dot(|ch.a|, StateAfter(ArithmeticOf(ch, |ch.a|), start, tokens), c) == Sum(Weighted(ch, start, tokens, ds, c))
  {
    var state := StateAfter(ArithmeticOf(ch, |ch.a|), start, tokens);
    StateSize(ch, start, tokens);
    var weighted := Weighted(ch, start, tokens, ds, c);
    forall i | 0 <= i < |ch.a| ensures weighted[i] == Times(state[i], At(c, i)) {
      StateIsClosedForm(ch, start, tokens, ds, i);
    }
    DotIsSum(state, c, weighted);
  }

  lemma OutputIsClosedForm(ch: Channel, start: Vec, tokens: seq<Token>, ds: seq<real>, n: nat)
    requires n < |tokens| && |start| == |ch.a| && AreStepSizes(ch, tokens, ds)
    ensures OutAt(ArithmeticOf(ch, |ch.a|), start, tokens, n) == Output(ch, start, tokens, ds, n)
  {
    OutIs(ch, start, tokens, n);
    WeightedSum(ch, start, tokens[..n + 1], ds[..n + 1], tokens[n].c);
  }

  lemma OutIs(ch: Channel, start: Vec, tokens: seq<Token>, n: nat)
    requires n < |tokens|
    ensures var k := ArithmeticOf(ch, |ch.a|);
            OutAt(k, start, tokens, n) == Dot(|ch.a|, StateAfter(k, start, tokens[..n + 1]), tokens[n].c) + Skip(ch, tokens[n])
  {
    var k := ArithmeticOf(ch, |ch.a|);
    var state := StateAfter(k, start, tokens[..n + 1]);
    assert k.output(state, tokens[n]) == OutputLanes(ch, |ch.a|, state, tokens[n]);
  }

  lemma {:induction false} StateSize(ch: Channel, start: Vec, tokens: seq<Token>)
    requires |start| == |ch.a|
    ensures |StateAfter(ArithmeticOf(ch, |ch.a|), start, tokens)| == |ch.a|
  {
    if tokens != [] {
      StateSize(ch, start, tokens[..|tokens| - 1]);
    }
  }

  lemma GatedIsClosedForm(ch: Channel, start: Vec, tokens: seq<Token>, ds: seq<real>, n: nat)
    requires n < |tokens| && |start| == |ch.a| && AreStepSizes(ch, tokens, ds)
    ensures IsGated(ch, Output(ch, start, tokens, ds, n), tokens[n].z, GatedAt(ArithmeticOf(ch, |ch.a|), start, tokens, n))
  {
    OutputIsClosedForm(ch, start, tokens, ds, n);
  }
}
