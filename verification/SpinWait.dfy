/** The wait loop of csrc/spinloop.cpp: check, arm the hardware monitor, check
    again, sleep, against threads that write the buffer at any moment. */
module SpinWait {

  import Division

  type Bytes = seq<bv8>

  const WRAP := 0x1_0000_0000

  /** The call: where the buffer lies, the monitor hardware, the awaited
      condition on the buffer's contents, and the timeout in nanoseconds. */
  datatype Call = Call(base: nat, len: nat, line: nat, monitorx: bool,
                       cond: Bytes -> bool, timeout: nat)
  {
    /** A timeout of at most one nanosecond means none. */
    predicate HaveTimeout() {
      timeout > 1
    }

    /** buffer_qualifies, with cpu support. */
    predicate Monitors() {
      monitorx && len <= line
    }

    /** The monitor watches the aligned line that holds the buffer's first byte. */
    predicate Watched(offset: nat) {
      line > 0 && (base + offset) / line == base / line
    }
  }

  datatype Pc = Check | TimeCheck | Arm | Recheck | Sleep | Pause | Done(result: bool) | Error

  /** `passes`, `polled` and `late` are history: passes begun and abandoned, the
      passes that read the clock, and the passes that began after the timeout.
      `clock` counts from the start of the call. */
  datatype State = State(buffer: Bytes, clock: nat, pc: Pc, triggered: bool, iteration: nat,
                         passes: nat, polled: seq<nat>, late: nat)

  ghost predicate Init(c: Call, s: State) {
    |s.buffer| == c.len && s.pc == Check && s.clock == 0 && s.iteration == 0 && s.passes == 0 && s.polled == [] && s.late == 0
  }

  /** The end of a pass that will come round again. */
  function NextPass(s: State): State {
    s.(pc := Check, passes := s.passes + 1)
  }

  ghost predicate WaiterStep(c: Call, s: State, s': State)
  {
    match s.pc
    case Check =>
      || s' == s.(pc := Error)
      || (c.cond(s.buffer) && s' == s.(pc := Done(true)))
      || (!c.cond(s.buffer) && s' == s.(pc := TimeCheck, late := if s.clock >= c.timeout then s.late + 1 else s.late))
    case TimeCheck =>
      var go := s.(pc := if c.Monitors() then Arm else Pause, iteration := (s.iteration + 1) % WRAP);
      if c.HaveTimeout() && s.iteration % 16 == 0 then
        var read := s.polled + [s.passes];
        || s' == s.(pc := Error)
        || (s.clock >= c.timeout && s' == s.(pc := Done(false), polled := read))
        || (s.clock < c.timeout && s' == go.(polled := read))
      else s' == go
    case Arm =>
      s' == s.(pc := Recheck, triggered := false)
    case Recheck =>
      || s' == s.(pc := Error)
      || (c.cond(s.buffer) && s' == s.(pc := Done(true)))
      || (!c.cond(s.buffer) && s' == s.(pc := Sleep))
    case Sleep =>
      s' == NextPass(s)  // trigger, timer or interrupt
    case Pause =>
      s' == NextPass(s)
    case _ => false
  }

  ghost predicate WriteStep(c: Call, s: State, s': State) {
    exists offset: nat, b: bv8 :: Wrote(c, s, offset, b, s')
  }

  predicate Wrote(c: Call, s: State, offset: nat, b: bv8, s': State) {
    && offset < |s.buffer|
    && s' == s.(buffer := s.buffer[offset := b], triggered := s.triggered || c.Watched(offset))
  }

  ghost predicate Next(c: Call, s: State, s': State)
  {
    || WaiterStep(c, s, s')
    || WriteStep(c, s, s')
    || (s'.clock >= s.clock && s' == s.(clock := s'.clock))
  }

  ghost predicate IsRun(c: Call, run: seq<State>)
  {
    && |run| > 0 && Init(c, run[0])
    && forall k :: 0 <= k < |run| - 1 ==> Next(c, run[k], run[k + 1])
  }

  // ------------------------------------------------------- lost wake-ups

  /** Asleep on a monitor that did not fire, while the condition holds. */
  ghost predicate Lost(c: Call, s: State) {
    s.pc == Sleep && !s.triggered && c.cond(s.buffer)
  }

  /** The whole buffer lies in the watched line. */
  predicate InOneLine(c: Call) {
    c.line > 0 && c.base % c.line + c.len <= c.line
  }

  lemma InOneLineIsWatched(c: Call, offset: nat)
    requires InOneLine(c) && offset < c.len
    ensures c.Watched(offset)
  {
    var q, r := c.base / c.line, c.base % c.line;
    assert c.base + offset == q * c.line + (r + offset);
    Division.Quotient(q, c.line, r + offset);
  }

  lemma {:induction false} NoLostWakeUp(c: Call, run: seq<State>, k: nat)
    requires IsRun(c, run) && k < |run| && InOneLine(c)
    ensures |run[k].buffer| == c.len && !Lost(c, run[k])
  {
    if k > 0 {
      NoLostWakeUp(c, run, k - 1);
      var s, s' := run[k - 1], run[k];
      assert Next(c, s, run[k - 1 + 1]);
      if WriteStep(c, s, s') {
        var offset: nat, b: bv8 :| Wrote(c, s, offset, b, s');
        InOneLineIsWatched(c, offset);
      }
    }
  }

  /** A call that differs only in the condition awaited. */
  function Awaiting(c: Call, cond: Bytes -> bool): Call {
    c.(cond := cond)
  }

  /** No wake-up is lost, whatever condition is awaited and however it is
      scheduled, if and only if the buffer lies in one aligned monitor line. The
      loop itself only compares the buffer's length with the line size. */
  lemma NoLostWakeUpIffInOneLine(c: Call)
    requires c.Monitors() && c.line > 0
    ensures (forall cond: Bytes -> bool, run: seq<State>, k: nat ::
               IsRun(Awaiting(c, cond), run) && k < |run| ==> !Lost(Awaiting(c, cond), run[k]))
            <==> InOneLine(c)
  {
    if InOneLine(c) {
      forall cond: Bytes -> bool, run: seq<State>, k: nat | IsRun(Awaiting(c, cond), run) && k < |run|
        ensures !Lost(Awaiting(c, cond), run[k])
      {
        NoLostWakeUp(Awaiting(c, cond), run, k);
      }
    } else {
      StraddlingBufferLosesWakeUp(c);
    }
  }

  /** The last byte of a buffer that crosses the line is written unseen. */
  lemma StraddlingBufferLosesWakeUp(c: Call)
    requires c.Monitors() && c.line > 0 && !InOneLine(c)
    ensures exists cond: Bytes -> bool, run: seq<State>, k: nat ::
              IsRun(Awaiting(c, cond), run) && k < |run| && Lost(Awaiting(c, cond), run[k])
  {
    var c', run := LosingRun(c);
    assert Lost(Awaiting(c, c'.cond), run[5]);
  }

  lemma LosingRun(c: Call) returns (c': Call, run: seq<State>)
    requires c.Monitors() && c.line > 0 && !InOneLine(c)
    ensures c' == Awaiting(c, c'.cond) && |run| == 6 && IsRun(c', run) && Lost(c', run[5])
  {
    LastByteUnwatched(c);
    var last := c.len - 1;
    c' := Awaiting(c, (b: Bytes) => last < |b| && b[last] == 1);
    var zeros: Bytes := seq(c.len, _ => 0);
    var asleep := FallsAsleep(c', zeros);
    var lost := asleep[4].(buffer := zeros[last := 1]);
    assert Wrote(c', asleep[4], last, 1, lost);
    run := OneMoreStep(c', asleep, lost);
  }

  /** With nothing written the waiter goes to sleep in its first pass. */
  lemma FallsAsleep(c: Call, buffer: Bytes) returns (run: seq<State>)
    requires c.Monitors() && |buffer| == c.len && !c.cond(buffer)
    ensures |run| == 5 && IsRun(c, run) && run[4].pc == Sleep && !run[4].triggered && run[4].buffer == buffer
  {
    var polled: seq<nat> := if c.HaveTimeout() then [0] else [];
    var s0 := State(buffer, 0, Check, false, 0, 0, [], 0);
    var s1 := s0.(pc := TimeCheck, late := if c.timeout == 0 then 1 else 0);
    var s2 := s1.(pc := Arm, iteration := 1, polled := polled);
    var s3 := s2.(pc := Recheck);
    var s4 := s3.(pc := Sleep);
    assert WaiterStep(c, s0, s1) && WaiterStep(c, s1, s2);
    assert WaiterStep(c, s2, s3) && WaiterStep(c, s3, s4);
    run := OneMoreStep(c, [s0], s1);
    run := OneMoreStep(c, run, s2);
    run := OneMoreStep(c, run, s3);
    run := OneMoreStep(c, run, s4);
  }

  lemma OneMoreStep(c: Call, run: seq<State>, s: State) returns (longer: seq<State>)
    requires IsRun(c, run) && Next(c, run[|run| - 1], s)
    ensures longer == run + [s] && IsRun(c, longer)
  {
    longer := run + [s];
  }

  lemma LastByteUnwatched(c: Call)
    requires c.line > 0 && c.len <= c.line && !InOneLine(c)
    ensures c.len > 0 && !c.Watched(c.len - 1)
  {
    var q, r := c.base / c.line, c.base % c.line;
    var over := r + c.len - 1 - c.line;
    assert c.base + (c.len - 1) == (q + 1) * c.line + over;
    Division.Quotient(q + 1, c.line, over);
  }

  // -------------------------------------------------------------- timeout

  /** The passes below `n` at which the clock is due. */
  function Due(n: nat): seq<nat> {
    if n == 0 then [] else if (n - 1) % 16 == 0 then Due(n - 1) + [n - 1] else Due(n - 1)
  }

  /** The pass whose clock test comes next. */
  function Tested(s: State): nat {
    if s.pc.Check? || s.pc.TimeCheck? then s.passes else s.passes + 1
  }

  predicate Looping(s: State) {
    !s.pc.Done? && !s.pc.Error?
  }

  ghost predicate PollInv(c: Call, s: State)
  {
    && (Looping(s) ==> s.iteration == Tested(s) % WRAP)
    && (Looping(s) ==> s.polled == if c.HaveTimeout() then Due(Tested(s)) else [])
    && (s.pc == Done(false) ==> c.HaveTimeout() && s.clock >= c.timeout && s.polled == Due(s.passes + 1))
  }

  lemma ClockTest(c: Call, s: State, s': State)
    requires PollInv(c, s) && s.pc == TimeCheck && WaiterStep(c, s, s')
    ensures PollInv(c, s')
  {
    WrapKeepsSixteens(s.passes);
  }

  lemma OtherStep(c: Call, s: State, s': State)
    requires PollInv(c, s) && s.pc != TimeCheck && WaiterStep(c, s, s')
    ensures PollInv(c, s')
  {
  }

  /** Writes and the passing of time touch nothing but the buffer, the trigger and
      the clock. */
  lemma OutsideStep(c: Call, s: State, s': State)
    requires PollInv(c, s) && s.clock <= s'.clock
    requires s' == s.(buffer := s'.buffer, triggered := s'.triggered, clock := s'.clock)
    ensures PollInv(c, s')
  {
  }

  lemma PollStep(c: Call, s: State, s': State)
    requires PollInv(c, s) && Next(c, s, s')
    ensures PollInv(c, s')
  {
    if WaiterStep(c, s, s') {
      if s.pc == TimeCheck {
        ClockTest(c, s, s');
      } else {
        OtherStep(c, s, s');
      }
    } else {
      OutsideStep(c, s, s');
    }
  }

  /** The clock is read on the first pass and on every sixteenth pass after it,
      also after the 32-bit counter wraps; only a read can end in a timeout. */
  lemma {:induction false} ClockReadEverySixteenPasses(c: Call, run: seq<State>, k: nat)
    requires IsRun(c, run) && k < |run|
    ensures PollInv(c, run[k])
  {
    if k > 0 {
      ClockReadEverySixteenPasses(c, run, k - 1);
      assert Next(c, run[k - 1], run[k - 1 + 1]);
      PollStep(c, run[k - 1], run[k]);
    }
  }

  /** How many passes were tested since the last clock read, before pass `n`. */
  function SinceRead(n: nat): nat {
    if n == 0 then 0 else if (n - 1) % 16 == 0 then 0 else SinceRead(n - 1) + 1
  }

  lemma {:induction false} SinceReadBound(n: nat)
    ensures n > 0 ==> SinceRead(n) == (n - 1) % 16
  {
    if n > 1 {
      SinceReadBound(n - 1);
    }
  }

  /** One proposition, so that those who only pass it on need not look inside. */
  ghost predicate LateInv(c: Call, s: State)
  {
    LateParts(c, s) == true
  }

  ghost predicate LateParts(c: Call, s: State)
  {
    && (Looping(s) ==> s.late <= SinceRead(Tested(s)) + if s.pc.TimeCheck? then 1 else 0)
    && (s.clock < c.timeout ==> s.late == 0)
    && s.late <= 16
  }

  lemma LateOutside(c: Call, s: State, s': State)
    requires LateInv(c, s) && s.clock <= s'.clock
    requires s' == s.(buffer := s'.buffer, triggered := s'.triggered, clock := s'.clock)
    ensures LateInv(c, s')
  {
  }

  lemma LateStep(c: Call, s: State, s': State)
    requires c.HaveTimeout() && LateInv(c, s) && PollInv(c, s) && WaiterStep(c, s, s')
    ensures LateInv(c, s')
  {
    SinceReadBound(s.passes);
    if s.pc.TimeCheck? {
      WrapKeepsSixteens(s.passes);
    }
  }

  lemma LateNext(c: Call, s: State, s': State)
    requires c.HaveTimeout() && LateInv(c, s) && PollInv(c, s) && Next(c, s, s')
    ensures LateInv(c, s')
  {
    if WaiterStep(c, s, s') {
      LateStep(c, s, s');
    } else {
      LateOutside(c, s, s');
    }
  }

  /** A timeout is noticed in time: at most sixteen passes begin after it. */
  lemma {:induction false} TimeoutNoticedWithinSixteenPasses(c: Call, run: seq<State>, k: nat)
    requires IsRun(c, run) && k < |run| && c.timeout > 1
    ensures LateInv(c, run[k])
  {
    if k > 0 {
      TimeoutNoticedWithinSixteenPasses(c, run, k - 1);
      ClockReadEverySixteenPasses(c, run, k - 1);
      assert Next(c, run[k - 1], run[k - 1 + 1]);
      LateNext(c, run[k - 1], run[k]);
    }
  }

  /** The 32-bit counter wraps at a multiple of 16. */
  lemma WrapKeepsSixteens(n: nat)
    ensures n % WRAP % 16 == n % 16
    ensures (n % WRAP + 1) % WRAP == (n + 1) % WRAP
  {
    var q := n / WRAP;
    assert n == q * WRAP + n % WRAP;
    assert q * WRAP == 16 * (q * 0x1000_0000);
  }

  // --------------------------------------------------------------- the result

  lemma EndsTrue(c: Call, s: State, s': State)
    requires Next(c, s, s') && s.pc != Done(true) && s'.pc == Done(true)
    ensures c.cond(s'.buffer)
  {
  }

  /** A wait that returned true had the condition true at the very step that ended
      it. */
  lemma {:induction false} TrueWhenHeld(c: Call, run: seq<State>, k: nat) returns (j: nat)
    requires IsRun(c, run) && k < |run| && run[k].pc == Done(true)
    ensures 0 < j <= k && run[j - 1].pc != Done(true) && run[j].pc == Done(true) && c.cond(run[j].buffer)
  {
    assert Next(c, run[k - 1], run[k - 1 + 1]);
    if run[k - 1].pc == Done(true) {
      j := TrueWhenHeld(c, run, k - 1);
    } else {
      EndsTrue(c, run[k - 1], run[k]);
      j := k;
    }
  }

  /** A wait during which the condition never held ends by an error or a timeout,
      if it ends. */
  lemma NeverHeldNeverTrue(c: Call, run: seq<State>, k: nat)
    requires IsRun(c, run) && k < |run| && forall j :: 0 <= j <= k ==> !c.cond(run[j].buffer)
    ensures Looping(run[k]) || run[k].pc.Error? || (run[k].pc == Done(false) && c.timeout > 1 && run[k].clock >= c.timeout)
  {
    if run[k].pc == Done(true) {
      var j := TrueWhenHeld(c, run, k);
    } else {
      ClockReadEverySixteenPasses(c, run, k);
    }
  }

  /** How many moves of the waiter are left at most, once the condition holds. */
  function MovesLeft(pc: Pc): nat {
    match pc
    case Check => 1
    case Recheck => 1
    case Arm => 2
    case Sleep => 2
    case Pause => 2
    case TimeCheck => 3
    case _ => 0
  }

  function Moves(run: seq<State>, k0: nat, k: nat): nat
    requires k0 <= k < |run|
    decreases k - k0
  {
    if k0 == k then 0 else (if run[k0].pc != run[k0 + 1].pc then 1 else 0) + Moves(run, k0 + 1, k)
  }

  lemma MoveCounts(c: Call, s: State, s': State)
    requires Next(c, s, s') && c.cond(s.buffer) && s.pc != s'.pc
    ensures MovesLeft(s'.pc) < MovesLeft(s.pc)
  {
  }

  lemma MoveInRun(c: Call, run: seq<State>, k: nat)
    requires IsRun(c, run) && k + 1 < |run| && c.cond(run[k].buffer)
    ensures run[k].pc != run[k + 1].pc ==> MovesLeft(run[k + 1].pc) < MovesLeft(run[k].pc)
  {
    assert Next(c, run[k], run[k + 1]);
    if run[k].pc != run[k + 1].pc {
      MoveCounts(c, run[k], run[k + 1]);
    }
  }

  /** Once the condition holds and stays, the waiter makes at most three more moves
      before its end, monitor or not. */
  lemma {:induction false} EndsWithinThreeMoves(c: Call, run: seq<State>, k0: nat, k: nat)
    requires IsRun(c, run) && k0 <= k < |run| && forall j :: k0 <= j <= k ==> c.cond(run[j].buffer)
    ensures Moves(run, k0, k) + MovesLeft(run[k].pc) <= MovesLeft(run[k0].pc) <= 3
    decreases k - k0
  {
    if k0 < k {
      MoveInRun(c, run, k0);
      EndsWithinThreeMoves(c, run, k0 + 1, k);
    }
  }

  /** A waiter that has not ended can always move, and need not fail to. */
  lemma NeverStuck(c: Call, s: State) returns (s': State)
    requires Looping(s)
    ensures WaiterStep(c, s, s') && s'.pc != s.pc && s'.pc != Error
    ensures c.cond(s.buffer) && MovesLeft(s.pc) == 1 ==> s'.pc == Done(true)
  {
    var go := s.(pc := if c.Monitors() then Arm else Pause, iteration := (s.iteration + 1) % WRAP);
    match s.pc
    case Check =>
      s' := if c.cond(s.buffer) then s.(pc := Done(true))
            else s.(pc := TimeCheck, late := if s.clock >= c.timeout then s.late + 1 else s.late);
    case TimeCheck =>
      if c.HaveTimeout() && s.iteration % 16 == 0 {
        s' := if s.clock >= c.timeout then s.(pc := Done(false), polled := s.polled + [s.passes])
              else go.(polled := s.polled + [s.passes]);
      } else {
        s' := go;
      }
    case Arm => s' := s.(pc := Recheck, triggered := false);
    case Recheck => s' := s.(pc := if c.cond(s.buffer) then Done(true) else Sleep);
    case _ => s' := NextPass(s);
  }

  /** A buffer that lies in one line is monitored, if the processor can. */
  lemma OneLineQualifies(c: Call)
    requires c.monitorx && InOneLine(c)
    ensures c.Monitors()
  {
    Division.Bounds(c.base, c.line);
  }

  // ------------------------------------------------------- what a trigger means

  /** Between arming the monitor and the end of the sleep. */
  predicate Watching(s: State) {
    s.pc == Recheck || s.pc == Sleep
  }

  /** At step `m` a byte of the watched line was written. */
  ghost predicate WatchedWrite(c: Call, s: State, s': State) {
    exists offset: nat, b: bv8 :: Wrote(c, s, offset, b, s') && c.Watched(offset)
  }

  lemma TriggerStep(c: Call, s: State, s': State)
    requires Next(c, s, s') && Watching(s') && s'.triggered && !(Watching(s) && s.triggered)
    ensures Watching(s) && WatchedWrite(c, s, s')
  {
    if WriteStep(c, s, s') {
      var offset: nat, b: bv8 :| Wrote(c, s, offset, b, s');
    }
  }

  /** A trigger that is seen while watching was set off by a write to the watched
      line since the monitor was last armed: arming forgets older ones. */
  lemma {:induction false} TriggerIsRecent(c: Call, run: seq<State>, k: nat) returns (m: nat)
    requires IsRun(c, run) && k < |run| && Watching(run[k]) && run[k].triggered
    ensures m < k && WatchedWrite(c, run[m], run[m + 1]) && forall n :: m <= n <= k ==> Watching(run[n])
  {
    assert Next(c, run[k - 1], run[k - 1 + 1]);
    if Watching(run[k - 1]) && run[k - 1].triggered {
      m := TriggerIsRecent(c, run, k - 1);
    } else {
      TriggerStep(c, run[k - 1], run[k]);
      m := k - 1;
    }
  }

  /** Wherever the callback is called it may raise, which ends the wait. */
  lemma CallbackMayRaise(c: Call, run: seq<State>) returns (longer: seq<State>)
    requires IsRun(c, run) && (run[|run| - 1].pc == Check || run[|run| - 1].pc == Recheck)
    ensures IsRun(c, longer) && run < longer && longer[|longer| - 1].pc == Error
  {
    var s := run[|run| - 1];
    assert WaiterStep(c, s, s.(pc := Error));
    longer := OneMoreStep(c, run, s.(pc := Error));
  }
}
