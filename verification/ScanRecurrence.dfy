/** The recurrence computed by _selective_scan_fwd_kernel in vllm/_xpu_ops.py,
    over exact reals, for one sequence and one channel. */
module ScanRecurrence {

  type Vec = seq<real>

  /** The inputs at one position, before anything is overwritten. */
  datatype Token = Token(u: real, delta: real, z: real, b: Vec, c: Vec)

  /** The arithmetic of one position: the new state, the output read off it, and
      the gated output. */
  datatype Arithmetic = Arithmetic(step: (Vec, Token) -> Vec, output: (Vec, Token) -> real, gate: (real, real) -> real)

  // ------------------------------------------------- the plain recurrence

  /** The state after all of `tokens`. */
  function StateAfter(k: Arithmetic, start: Vec, tokens: seq<Token>): Vec {
    if tokens == [] then start
    else k.step(StateAfter(k, start, tokens[..|tokens| - 1]), tokens[|tokens| - 1])
  }

  /** The output at position `i`. */
  function OutAt(k: Arithmetic, start: Vec, tokens: seq<Token>, i: nat): real
    requires i < |tokens|
  {
    k.output(StateAfter(k, start, tokens[..i + 1]), tokens[i])
  }

  function GatedAt(k: Arithmetic, start: Vec, tokens: seq<Token>, i: nat): real
    requires i < |tokens|
  {
    k.gate(OutAt(k, start, tokens, i), tokens[i].z)
  }

  /** All outputs, and all gated outputs. */
  function Outs(k: Arithmetic, start: Vec, tokens: seq<Token>): (outs: seq<real>)
    ensures |outs| == |tokens|
  {
    seq(|tokens|, i requires 0 <= i < |tokens| => OutAt(k, start, tokens, i))
  }

  function Gateds(k: Arithmetic, start: Vec, tokens: seq<Token>): (outs: seq<real>)
    ensures |outs| == |tokens|
  {
    seq(|tokens|, i requires 0 <= i < |tokens| => GatedAt(k, start, tokens, i))
  }

  /** Scanning in two parts is scanning at once: the second part continues from
      the state the first part left. */
  lemma {:induction false} ScanSplits(k: Arithmetic, start: Vec, first: seq<Token>, second: seq<Token>)
    ensures StateAfter(k, start, first + second) == StateAfter(k, StateAfter(k, start, first), second)
  {
    if second == [] {
      assert first + second == first;
    } else {
      var rest := second[..|second| - 1];
      ScanSplits(k, start, first, rest);
      assert (first + second)[..|first + second| - 1] == first + rest;
    }
  }

  lemma OutputsSplit(k: Arithmetic, start: Vec, first: seq<Token>, second: seq<Token>, i: nat)
    requires i < |second|
    ensures OutAt(k, start, first + second, |first| + i) == OutAt(k, StateAfter(k, start, first), second, i)
    ensures GatedAt(k, start, first + second, |first| + i) == GatedAt(k, StateAfter(k, start, first), second, i)
  {
    assert (first + second)[..|first| + i + 1] == first + second[..i + 1];
    ScanSplits(k, start, first, second[..i + 1]);
  }

  // -------------------------------------------------------- padded lanes

  /** A masked load: lanes past the end read as zero. */
  function At(v: Vec, i: nat): real {
    if i < |v| then v[i] else 0.0
  }

  /** The vector as it is loaded into `lanes` lanes. */
  function Lanes(v: Vec, lanes: nat): (w: Vec)
    ensures |w| == lanes
  {
    seq(lanes, i requires 0 <= i => At(v, i))
  }

  predicate TokenFits(size: nat, t: Token) {
    |t.b| == |t.c| == size
  }

  /** `wide` computes on padded vectors what `k` computes on vectors of `size`. */
  ghost predicate Simulates(wide: Arithmetic, k: Arithmetic, size: nat, lanes: nat)
  {
    && (forall s, t {:trigger k.step(s, t)} :: |s| == size && TokenFits(size, t) ==>
          && |k.step(s, t)| == size
          && wide.step(Lanes(s, lanes), t) == Lanes(k.step(s, t), lanes))
    && (forall s, t {:trigger k.output(s, t)} :: |s| == size && TokenFits(size, t) ==>
          wide.output(Lanes(s, lanes), t) == k.output(s, t))
    && (forall o, z {:trigger k.gate(o, z)} :: wide.gate(o, z) == k.gate(o, z))
  }

  lemma {:induction false} StateKeepsSize(k: Arithmetic, wide: Arithmetic, size: nat, lanes: nat, start: Vec, tokens: seq<Token>)
    requires Simulates(wide, k, size, lanes) && |start| == size
    requires forall i :: 0 <= i < |tokens| ==> TokenFits(size, tokens[i])
    ensures |StateAfter(k, start, tokens)| == size
  {
    if tokens != [] {
      StateKeepsSize(k, wide, size, lanes, start, tokens[..|tokens| - 1]);
    }
  }

  // ------------------------------------------------------- the kernel's own

  /** The parameters of one channel; `exp` and `log` are any functions. */
  datatype Channel = Channel(a: Vec, hasD: bool, d: real, hasBias: bool, bias: real, useSoftplus: bool,
                             exp: real -> real, log: real -> real)

  function Softplus(ch: Channel, x: real): real {
    if x <= 20.0 then ch.log(ch.exp(x) + 1.0) else x
  }

  function StepSize(ch: Channel, delta: real): real {
    var biased := if ch.hasBias then delta + ch.bias else delta;
    if ch.useSoftplus then Softplus(ch, biased) else biased
  }

  /** state := exp(delta * A) * state + delta * u * B, in lane `i`. */
  function StepLane(ch: Channel, dt: real, state: Vec, t: Token, i: nat): real {
    ch.exp(dt * At(ch.a, i)) * At(state, i) + dt * t.u * At(t.b, i)
  }

  function StepLanes(ch: Channel, lanes: nat, state: Vec, t: Token): (s: Vec)
    ensures |s| == lanes
  {
    var dt := StepSize(ch, t.delta);
    seq(lanes, i requires 0 <= i => StepLane(ch, dt, state, t, i))
  }

  function Dot(lanes: nat, x: Vec, y: Vec): real {
    if lanes == 0 then 0.0 else Dot(lanes - 1, x, y) + At(x, lanes - 1) * At(y, lanes - 1)
  }

  function OutputLanes(ch: Channel, lanes: nat, state: Vec, t: Token): real {
    Dot(lanes, state, t.c) + if ch.hasD then ch.d * t.u else 0.0
  }

  /** out * z / (1 + exp(-z)). The divisor is never zero for the real exp, which
      is positive; for other functions the value there is arbitrary. */
  function Gate(ch: Channel, out: real, z: real): real {
    var divisor := 1.0 + ch.exp(-z);
    if divisor == 0.0 then 0.0 else out * z / divisor
  }

  function ArithmeticOf(ch: Channel, lanes: nat): Arithmetic {
    Arithmetic((s, t) => StepLanes(ch, lanes, s, t), (s, t) => OutputLanes(ch, lanes, s, t), (o, z) => Gate(ch, o, z))
  }

  /** The kernel rounds the state size up to a power of two. The extra lanes stay
      zero and add nothing, so the padded arithmetic simulates the plain one. */
  lemma PaddingIsHarmless(ch: Channel, lanes: nat)
    requires |ch.a| <= lanes
    ensures Simulates(ArithmeticOf(ch, lanes), ArithmeticOf(ch, |ch.a|), |ch.a|, lanes)
  {
    var wide, k, size := ArithmeticOf(ch, lanes), ArithmeticOf(ch, |ch.a|), |ch.a|;
    forall s, t | |s| == size && TokenFits(size, t)
      ensures |k.step(s, t)| == size && wide.step(Lanes(s, lanes), t) == Lanes(k.step(s, t), lanes)
      ensures wide.output(Lanes(s, lanes), t) == k.output(s, t)
    {
      PaddedStep(ch, lanes, s, t);
      PaddedDot(size, lanes, lanes, s, t.c);
    }
  }

  /** Lanes past the state size stay zero through a step. */
  lemma PaddedStep(ch: Channel, lanes: nat, state: Vec, t: Token)
    requires |ch.a| <= lanes && |state| == |ch.a| && TokenFits(|ch.a|, t)
    ensures StepLanes(ch, lanes, Lanes(state, lanes), t) == Lanes(StepLanes(ch, |ch.a|, state, t), lanes)
  {
    var wide, narrow := StepLanes(ch, lanes, Lanes(state, lanes), t), StepLanes(ch, |ch.a|, state, t);
    forall i | 0 <= i < lanes ensures wide[i] == At(narrow, i) {
    }
  }

  lemma {:induction false} PaddedDot(n: nat, lanes: nat, width: nat, x: Vec, y: Vec)
    requires |x| == n <= lanes && lanes <= width
    ensures Dot(lanes, Lanes(x, width), y) == Dot(n, x, y)
  {
    if lanes > n {
      PaddedDot(n, lanes - 1, width, x, y);
    } else {
      SameDot(n, Lanes(x, width), x, y);
    }
  }

  lemma {:induction false} SameDot(n: nat, x: Vec, x': Vec, y: Vec)
    requires n <= |x| && n <= |x'| && forall i :: 0 <= i < n ==> x[i] == x'[i]
    ensures Dot(n, x, y) == Dot(n, x', y)
  {
    if n > 0 {
      SameDot(n - 1, x, x', y);
    }
  }
}
