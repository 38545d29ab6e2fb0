/** The start/stop event sweep of SummarizeEntries in
    tools/report_build_time_ninja.py. Times are the log's integral milliseconds
    and weights are exact reals. */
module BuildTimeSweep {

  datatype Task = Task(start: int, end: int)

  datatype Event = Event(time: int, stop: bool, task: nat)

  // ------------------------------------------------- what a weight means

  predicate RunsAt(task: Task, t: int) {
    task.start <= t < task.end
  }

  /** How many tasks run during the millisecond that starts at `t`. */
  function Concurrency(tasks: seq<Task>, t: int): nat {
    if tasks == [] then 0
    else Concurrency(tasks[..|tasks| - 1], t) + if RunsAt(tasks[|tasks| - 1], t) then 1 else 0
  }

  /** The share of that millisecond that each running task is charged. */
  function Share(tasks: seq<Task>, t: int): real {
    if Concurrency(tasks, t) == 0 then 0.0 else 1.0 / Concurrency(tasks, t) as real
  }

  /** The shares of the milliseconds from `lo` up to `hi`. */
  function Charged(tasks: seq<Task>, lo: int, hi: int): real
    decreases hi - lo
  {
    if hi <= lo then 0.0 else Charged(tasks, lo, hi - 1) + Share(tasks, hi - 1)
  }

  /** A task's weighted duration: every millisecond it ran, split evenly among
      the tasks running in it. */
  function Weight(tasks: seq<Task>, j: nat): real
    requires j < |tasks|
  {
    Charged(tasks, tasks[j].start, tasks[j].end)
  }

  /** The number of milliseconds in which at least one task runs. */
  function Busy(tasks: seq<Task>, lo: int, hi: int): nat
    decreases hi - lo
  {
    if hi <= lo then 0 else Busy(tasks, lo, hi - 1) + if Concurrency(tasks, hi - 1) > 0 then 1 else 0
  }

  function Sum(xs: seq<real>): real {
    if xs == [] then 0.0 else Sum(xs[..|xs| - 1]) + xs[|xs| - 1]
  }

  predicate WellOrdered(tasks: seq<Task>) {
    forall j :: 0 <= j < |tasks| ==> tasks[j].start <= tasks[j].end
  }

  // --------------------------------------------------------- event order

  function StartOf(tasks: seq<Task>, j: nat): Event
    requires j < |tasks|
  {
    Event(tasks[j].start, false, j)
  }

  function StopOf(tasks: seq<Task>, j: nat): Event
    requires j < |tasks|
  {
    Event(tasks[j].end, true, j)
  }

  function AllEvents(tasks: seq<Task>): seq<Event> {
    if tasks == [] then []
    else
      AllEvents(tasks[..|tasks| - 1]) + [StartOf(tasks, |tasks| - 1), StopOf(tasks, |tasks| - 1)]
  }

  /** Key order: by time, "start" before "stop". */
  predicate NotAfter(a: Event, b: Event) {
    a.time < b.time || (a.time == b.time && (!a.stop || b.stop))
  }

  /** Any result a sort on (time, action) may produce: ties in any order. */
  ghost predicate IsSchedule(tasks: seq<Task>, events: seq<Event>)
  {
    && multiset(events) == multiset(AllEvents(tasks))
    && forall a, b :: 0 <= a < b < |events| ==> NotAfter(events[a], events[b])
  }

  predicate IsEventOf(tasks: seq<Task>, e: Event) {
    e.task < |tasks| && (e == StartOf(tasks, e.task) || e == StopOf(tasks, e.task))
  }

  lemma {:induction false} AllEventsContents(tasks: seq<Task>, e: Event)
    ensures |AllEvents(tasks)| == 2 * |tasks|
    ensures multiset(AllEvents(tasks))[e] == if IsEventOf(tasks, e) then 1 else 0
  {
    if tasks != [] {
      var rest, last := tasks[..|tasks| - 1], |tasks| - 1;
      AllEventsContents(rest, e);
      assert multiset(AllEvents(tasks)) ==
             multiset(AllEvents(rest)) + multiset{StartOf(tasks, last), StopOf(tasks, last)};
      assert e.task < last ==> IsEventOf(tasks, e) == IsEventOf(rest, e);
    }
  }

  /** Exactly the start and stop of every task, each once. */
  lemma ScheduleContents(tasks: seq<Task>, events: seq<Event>)
    requires IsSchedule(tasks, events)
    ensures |events| == 2 * |tasks|
    ensures forall e :: e in events <==> IsEventOf(tasks, e)
    ensures forall k :: 0 <= k < |events| ==> events[k] !in events[..k] && events[k] !in events[k + 1..]
  {
    AllEventsContents(tasks, Event(0, false, 0));
    assert |multiset(events)| == |events| && |multiset(AllEvents(tasks))| == |AllEvents(tasks)|;
    forall e ensures e in events <==> IsEventOf(tasks, e) {
      AllEventsContents(tasks, e);
      assert e in events <==> e in multiset(events);
    }
    forall k | 0 <= k < |events|
      ensures events[k] !in events[..k] && events[k] !in events[k + 1..]
    {
      AllEventsContents(tasks, events[k]);
      OnlyHere(events, k);
    }
  }

  lemma OnlyHere(events: seq<Event>, k: nat)
    requires k < |events| && multiset(events)[events[k]] <= 1
    ensures events[k] !in events[..k] && events[k] !in events[k + 1..]
  {
    var e := events[k];
    assert events == events[..k] + [e] + events[k + 1..];
    assert multiset(events)[e] == multiset(events[..k])[e] + 1 + multiset(events[k + 1..])[e];
  }

  // ----------------------------------------------------- gaps in the sweep

  /** The tasks that have started and not stopped among `seen`. */
  ghost function Open(tasks: seq<Task>, seen: seq<Event>): set<nat> {
    set j: nat | j < |tasks| && StartOf(tasks, j) in seen && StopOf(tasks, j) !in seen
  }

  ghost function RunningSet(tasks: seq<Task>, t: int): set<nat> {
    set j: nat | j < |tasks| && RunsAt(tasks[j], t)
  }

  lemma {:induction false} RunningSetSize(tasks: seq<Task>, t: int)
    ensures |RunningSet(tasks, t)| == Concurrency(tasks, t)
  {
    if tasks != [] {
      var rest, last := tasks[..|tasks| - 1], |tasks| - 1;
      RunningSetSize(rest, t);
      assert RunningSet(tasks, t) == RunningSet(rest, t) + if RunsAt(tasks[last], t) then {last} else {};
    }
  }

  /** Between two consecutive events, the open tasks are the running ones. */
  lemma GapConcurrency(tasks: seq<Task>, events: seq<Event>, k: nat, t: int)
    requires IsSchedule(tasks, events) && 0 < k < |events|
    requires events[k - 1].time <= t < events[k].time
    ensures Open(tasks, events[..k]) == RunningSet(tasks, t)
    ensures |Open(tasks, events[..k])| == Concurrency(tasks, t)
  {
    ScheduleContents(tasks, events);
    RunningSetSize(tasks, t);
    forall j: nat | j < |tasks|
      ensures StartOf(tasks, j) in events[..k] <==> tasks[j].start <= t
      ensures StopOf(tasks, j) in events[..k] <==> tasks[j].end <= t
    {
      SeenByTime(tasks, events, k, t, StartOf(tasks, j));
      SeenByTime(tasks, events, k, t, StopOf(tasks, j));
    }
  }

  lemma SeenByTime(tasks: seq<Task>, events: seq<Event>, k: nat, t: int, e: Event)
    requires IsSchedule(tasks, events) && 0 < k < |events| && e in events
    requires events[k - 1].time <= t < events[k].time
    ensures e in events[..k] <==> e.time <= t
  {
    var p :| 0 <= p < |events| && events[p] == e;
    if p < k {
      assert events[..k][p] == e;
    }
  }

  /** Adding a stretch of constant concurrency. */
  lemma {:induction false} ChargedStretch(tasks: seq<Task>, lo: int, mid: int, hi: int, n: nat)
    requires lo <= mid <= hi
    requires forall t :: mid <= t < hi ==> Concurrency(tasks, t) == n
    ensures Charged(tasks, lo, hi) ==
            Charged(tasks, lo, mid) + if n == 0 then 0.0 else (hi - mid) as real / n as real
    decreases hi - mid
  {
    if mid < hi {
      ChargedStretch(tasks, lo, mid, hi - 1, n);
      if n > 0 {
        OneMoreShare(hi - mid, n);
      }
    }
  }

  lemma OneMoreShare(m: int, n: nat)
    requires n > 0
    ensures (m - 1) as real / n as real + 1.0 / n as real == m as real / n as real
  {
  }

  lemma {:induction false} ChargedSplits(tasks: seq<Task>, lo: int, mid: int, hi: int)
    requires lo <= mid <= hi
    ensures Charged(tasks, lo, hi) == Charged(tasks, lo, mid) + Charged(tasks, mid, hi)
    decreases hi - mid
  {
    if mid < hi {
      ChargedSplits(tasks, lo, mid, hi - 1);
    }
  }

  // ------------------------------------------------------------ the sweep

  datatype Report =
    | NoEntries                                     // events[0] of an empty list: IndexError
    | NotRunning(task: nat)                         // lookup of a task that has not started: KeyError
    | Weighted(weights: seq<real>, total: real)

  lemma {:induction false} SumUpdate(xs: seq<real>, j: nat, x: real)
    requires j < |xs|
    ensures Sum(xs[j := x]) == Sum(xs) - xs[j] + x
  {
    if j < |xs| - 1 {
      SumUpdate(xs[..|xs| - 1], j, x);
      assert xs[j := x][..|xs| - 1] == xs[..|xs| - 1][j := x];
    } else {
      assert xs[j := x][..j] == xs[..j];
    }
  }

  function Zeros(n: nat): seq<real> {
    seq(n, _ => 0.0)
  }

  lemma {:induction false} SumOfZeros(n: nat)
    ensures Sum(Zeros(n)) == 0.0
  {
    if n > 0 {
      SumOfZeros(n - 1);
      assert Zeros(n)[..n - 1] == Zeros(n - 1);
    }
  }

  /** A stop comes after the start of the same task exactly when the task does
      not end before it starts. */
  lemma StartedBeforeStop(tasks: seq<Task>, events: seq<Event>, k: nat, j: nat)
    requires IsSchedule(tasks, events) && k < |events| && j < |tasks|
    requires events[k] == StopOf(tasks, j)
    ensures StartOf(tasks, j) in events[..k] <==> tasks[j].start <= tasks[j].end
  {
    ScheduleContents(tasks, events);
    assert StartOf(tasks, j) in events;
    var p :| 0 <= p < |events| && events[p] == StartOf(tasks, j);
    if p < k {
      assert events[..k][p] == StartOf(tasks, j);
    }
  }

  /** What the sweep knows before event `k`, as one proposition. */
  ghost predicate SweepInv(tasks: seq<Task>, events: seq<Event>, k: nat, lastTime: int, charged: real,
                           running: map<nat, real>, weights: seq<real>, total: real)
    requires 0 <= k <= |events| && |events| > 0
  {
    SweepParts(tasks, events, k, lastTime, charged, running, weights, total) == true
  }

  ghost predicate SweepParts(tasks: seq<Task>, events: seq<Event>, k: nat, lastTime: int, charged: real,
                             running: map<nat, real>, weights: seq<real>, total: real)
    requires 0 <= k <= |events| && |events| > 0
  {
    && lastTime == (if k == 0 then events[0].time else events[k - 1].time)
    && charged == Charged(tasks, events[0].time, lastTime)
    && RunningInv(tasks, events, k, running)
    && |weights| == |tasks| && total == Sum(weights)
    && WeightsInv(tasks, events[..k], weights)
  }

  ghost predicate RunningInv(tasks: seq<Task>, events: seq<Event>, k: nat, running: map<nat, real>)
    requires 0 <= k <= |events| && |events| > 0
  {
    && running.Keys == Open(tasks, events[..k])
    && forall j :: j in running ==> running[j] == Charged(tasks, events[0].time, tasks[j].start)
  }

  ghost predicate WeightsInv(tasks: seq<Task>, seen: seq<Event>, weights: seq<real>)
    requires |weights| == |tasks|
  {
    forall j: nat :: j < |tasks| ==>
      if StopOf(tasks, j) in seen then tasks[j].start <= tasks[j].end && weights[j] == Weight(tasks, j)
      else weights[j] == 0.0
  }

  method Sweep(tasks: seq<Task>, events: seq<Event>) returns (r: Report)
    requires IsSchedule(tasks, events)
    ensures r.NoEntries? <==> tasks == []
    ensures r.NotRunning? <==> !WellOrdered(tasks)
    ensures r.NotRunning? ==> r.task < |tasks| && tasks[r.task].end < tasks[r.task].start
    ensures r.Weighted? ==> |r.weights| == |tasks| && r.total == Sum(r.weights)
    ensures r.Weighted? ==> forall j :: 0 <= j < |tasks| ==> r.weights[j] == Weight(tasks, j)
  {
    assert |events| == 2 * |tasks| by { ScheduleContents(tasks, events); }
    if |events| == 0 {
      return NoEntries;
    }
    var running: map<nat, real> := map[];
    var weights, total := Zeros(|tasks|), 0.0;
    var lastTime, lastWeighted := events[0].time, 0.0;
    SweepStart(tasks, events);
    for k := 0 to |events|
      invariant SweepInv(tasks, events, k, lastTime, lastWeighted, running, weights, total)
    {
      var started;
      started, lastWeighted, running, weights, total :=
        HandleEvent(tasks, events, k, lastTime, lastWeighted, running, weights, total);
      if !started {
        return NotRunning(events[k].task);
      }
      lastTime := events[k].time;
    }
    SweepEnd(tasks, events, lastTime, lastWeighted, running, weights, total);
    assert |running| == 0;
    return Weighted(weights, total);
  }

  /** The body of the loop: bring the weighted time up to the event, then start
      or stop its task. `started` is false for a stop without a start. */
  method HandleEvent(ghost tasks: seq<Task>, events: seq<Event>, k: nat, lastTime: int, lastWeighted: real,
                     running: map<nat, real>, weights: seq<real>, total: real)
    returns (started: bool, lastWeighted': real, running': map<nat, real>, weights': seq<real>, total': real)
    requires IsSchedule(tasks, events) && k < |events|
    requires SweepInv(tasks, events, k, lastTime, lastWeighted, running, weights, total)
    ensures started ==> SweepInv(tasks, events, k + 1, events[k].time, lastWeighted', running', weights', total')
    ensures !started ==> !WellOrdered(tasks) && events[k].task < |tasks| && tasks[events[k].task].end < tasks[events[k].task].start
  {
    var Event(_, stop, target) := events[k];
    started, running', weights', total' := true, running, weights, total;
    lastWeighted' := Accrue(tasks, events, k, lastTime, lastWeighted, running, weights, total);
    AfterEvent(tasks, events, k, lastTime, lastWeighted, running, weights, total, lastWeighted');
    if !stop {
      running' := running[target := lastWeighted'];
    } else if target !in running {
      NeverStarted(tasks, events, k, running);
      started := false;
    } else {
      var weighted := lastWeighted' - running[target];
      weights' := weights[target := weighted];
      total' := total + weighted;
      running' := running - {target};
    }
  }

  /** The accumulated weighted time, brought up to event `k`. */
  method Accrue(ghost tasks: seq<Task>, events: seq<Event>, k: nat, lastTime: int, lastWeighted: real,
                running: map<nat, real>, ghost weights: seq<real>, ghost total: real)
    returns (now: real)
    requires IsSchedule(tasks, events) && k < |events|
    requires SweepInv(tasks, events, k, lastTime, lastWeighted, running, weights, total)
    ensures now == Charged(tasks, events[0].time, events[k].time)
  {
    now := lastWeighted;
    var numRunning := |running|;
    assert numRunning == |running.Keys|;
    if numRunning > 0 {
      now := now + (events[k].time - lastTime) as real / numRunning as real;
    }
    AdvanceTime(tasks, events, k, lastTime, lastWeighted, running, weights, total);
  }

  /** What the rest of the loop body makes of it. */
  lemma AfterEvent(tasks: seq<Task>, events: seq<Event>, k: nat, lastTime: int, charged: real,
                   running: map<nat, real>, weights: seq<real>, total: real, now: real)
    requires IsSchedule(tasks, events) && k < |events| && now == Charged(tasks, events[0].time, events[k].time)
    requires SweepInv(tasks, events, k, lastTime, charged, running, weights, total)
    ensures events[k].task < |weights|
    ensures var j := events[k].task;
            !events[k].stop ==>
              SweepInv(tasks, events, k + 1, events[k].time, now, running[j := now], weights, total)
    ensures var j := events[k].task;
            events[k].stop && j in running ==>
              SweepInv(tasks, events, k + 1, events[k].time, now, running - {j},
                       weights[j := now - running[j]], total + (now - running[j]))
  {
    assert IsEventOf(tasks, events[k]) by { ScheduleContents(tasks, events); }
    if !events[k].stop {
      StartStep(tasks, events, k, lastTime, charged, running, weights, total);
    } else if events[k].task in running {
      StopStep(tasks, events, k, lastTime, charged, running, weights, total);
    }
  }

  lemma SweepStart(tasks: seq<Task>, events: seq<Event>)
    requires |events| > 0
    ensures SweepInv(tasks, events, 0, events[0].time, 0.0, map[], Zeros(|tasks|), 0.0)
  {
    SumOfZeros(|tasks|);
    assert Open(tasks, events[..0]) == {};
  }

  /** The running total, carried over the gap before event `k`. */
  lemma AdvanceTime(tasks: seq<Task>, events: seq<Event>, k: nat, lastTime: int, charged: real,
                    running: map<nat, real>, weights: seq<real>, total: real)
    requires IsSchedule(tasks, events) && k < |events|
    requires SweepInv(tasks, events, k, lastTime, charged, running, weights, total)
    ensures lastTime <= events[k].time
    ensures Charged(tasks, events[0].time, events[k].time) ==
            charged + if |running.Keys| == 0 then 0.0 else (events[k].time - lastTime) as real / |running.Keys| as real
  {
    var time := events[k].time;
    if k > 0 {
      assert NotAfter(events[k - 1], events[k]) && (k > 1 ==> NotAfter(events[0], events[k - 1]));
      forall t | lastTime <= t < time ensures Concurrency(tasks, t) == |running.Keys| {
        GapConcurrency(tasks, events, k, t);
      }
      ChargedStretch(tasks, events[0].time, lastTime, time, |running.Keys|);
    }
  }

  lemma StartStep(tasks: seq<Task>, events: seq<Event>, k: nat, lastTime: int, charged: real,
                  running: map<nat, real>, weights: seq<real>, total: real)
    requires IsSchedule(tasks, events) && k < |events| && !events[k].stop
    requires SweepInv(tasks, events, k, lastTime, charged, running, weights, total)
    ensures var now := Charged(tasks, events[0].time, events[k].time);
            SweepInv(tasks, events, k + 1, events[k].time, now, running[events[k].task := now], weights, total)
  {
    ScheduleContents(tasks, events);
    var j := events[k].task;
    assert events[..k + 1] == events[..k] + [events[k]];
    assert IsEventOf(tasks, events[k]);
  }

  lemma StopStep(tasks: seq<Task>, events: seq<Event>, k: nat, lastTime: int, charged: real,
                 running: map<nat, real>, weights: seq<real>, total: real)
    requires IsSchedule(tasks, events) && k < |events| && events[k].stop && events[k].task in running
    requires SweepInv(tasks, events, k, lastTime, charged, running, weights, total)
    ensures var now, j := Charged(tasks, events[0].time, events[k].time), events[k].task;
            j < |weights| &&
            SweepInv(tasks, events, k + 1, events[k].time, now, running - {j},
                     weights[j := now - running[j]], total + (now - running[j]))
  {
    assert IsEventOf(tasks, events[k]) && events[k] !in events[..k] by { ScheduleContents(tasks, events); }
    var j := events[k].task;
    StopWeight(tasks, events, k, j);
    RunningStop(tasks, events, k, running);
    WeightsStop(tasks, events, k, weights);
    SumUpdate(weights, j, Weight(tasks, j));
  }

  lemma NeverStarted(tasks: seq<Task>, events: seq<Event>, k: nat, running: map<nat, real>)
    requires IsSchedule(tasks, events) && k < |events| && events[k].stop && events[k].task !in running
    requires RunningInv(tasks, events, k, running)
    ensures events[k].task < |tasks| && tasks[events[k].task].end < tasks[events[k].task].start
  {
    ScheduleContents(tasks, events);
    assert IsEventOf(tasks, events[k]);
    StartedBeforeStop(tasks, events, k, events[k].task);
  }

  lemma RunningStop(tasks: seq<Task>, events: seq<Event>, k: nat, running: map<nat, real>)
    requires k < |events| && events[k].stop && IsEventOf(tasks, events[k])
    requires RunningInv(tasks, events, k, running)
    ensures RunningInv(tasks, events, k + 1, running - {events[k].task})
  {
    assert events[..k + 1] == events[..k] + [events[k]];
  }

  lemma WeightsStop(tasks: seq<Task>, events: seq<Event>, k: nat, weights: seq<real>)
    requires k < |events| && events[k].stop && IsEventOf(tasks, events[k]) && events[k] !in events[..k]
    requires |weights| == |tasks| && WeightsInv(tasks, events[..k], weights)
    requires tasks[events[k].task].start <= tasks[events[k].task].end
    ensures weights[events[k].task] == 0.0
    ensures WeightsInv(tasks, events[..k + 1], weights[events[k].task := Weight(tasks, events[k].task)])
  {
    assert events[..k + 1] == events[..k] + [events[k]];
  }

  lemma StopWeight(tasks: seq<Task>, events: seq<Event>, k: nat, j: nat)
    requires IsSchedule(tasks, events) && k < |events| && j < |tasks| && events[k] == StopOf(tasks, j)
    requires StartOf(tasks, j) in events[..k]
    ensures tasks[j].start <= tasks[j].end
    ensures Charged(tasks, events[0].time, tasks[j].end) ==
            Charged(tasks, events[0].time, tasks[j].start) + Weight(tasks, j)
  {
    StartedBeforeStop(tasks, events, k, j);
    var p :| 0 <= p < k && events[p] == StartOf(tasks, j);
    assert events[0].time <= tasks[j].start;
    ChargedSplits(tasks, events[0].time, tasks[j].start, tasks[j].end);
  }

  lemma SweepEnd(tasks: seq<Task>, events: seq<Event>, lastTime: int, charged: real,
                 running: map<nat, real>, weights: seq<real>, total: real)
    requires IsSchedule(tasks, events) && |events| > 0
    requires SweepInv(tasks, events, |events|, lastTime, charged, running, weights, total)
    ensures running == map[] && WellOrdered(tasks)
    ensures forall j :: 0 <= j < |tasks| ==> weights[j] == Weight(tasks, j)
  {
    ScheduleContents(tasks, events);
    assert events[..|events|] == events;
    forall j: nat | j < |tasks| ensures StopOf(tasks, j) in events {
      assert IsEventOf(tasks, StopOf(tasks, j));
    }
    assert running.Keys == {};
  }

  // --------------------------------------------------------- conservation

  /** What task `j` is charged in the milliseconds from `lo` up to `hi`. */
  ghost function ChargedTo(tasks: seq<Task>, j: nat, lo: int, hi: int): real
    requires j < |tasks|
    decreases hi - lo
  {
    if hi <= lo then 0.0
    else ChargedTo(tasks, j, lo, hi - 1) + if RunsAt(tasks[j], hi - 1) then Share(tasks, hi - 1) else 0.0
  }

  lemma {:induction false} ChargedToIsWeight(tasks: seq<Task>, j: nat, lo: int, hi: int)
    requires j < |tasks| && lo <= tasks[j].start <= tasks[j].end && lo <= hi
    ensures ChargedTo(tasks, j, lo, hi) ==
            Charged(tasks, tasks[j].start, if hi < tasks[j].end then hi else tasks[j].end)
    decreases hi - lo
  {
    if lo < hi {
      ChargedToIsWeight(tasks, j, lo, hi - 1);
    }
  }

  /** What the first `m` tasks are charged together. */
  ghost function ChargedToFirst(tasks: seq<Task>, m: nat, lo: int, hi: int): real
    requires m <= |tasks|
  {
    if m == 0 then 0.0 else ChargedToFirst(tasks, m - 1, lo, hi) + ChargedTo(tasks, m - 1, lo, hi)
  }

  /** Exchange of the two sums, one millisecond at a time. */
  lemma {:induction false} OneMoreMillisecond(tasks: seq<Task>, m: nat, lo: int, hi: int)
    requires m <= |tasks| && lo < hi
    ensures ChargedToFirst(tasks, m, lo, hi) ==
            ChargedToFirst(tasks, m, lo, hi - 1) + Concurrency(tasks[..m], hi - 1) as real * Share(tasks, hi - 1)
  {
    if m > 0 {
      OneMoreMillisecond(tasks, m - 1, lo, hi);
      assert tasks[..m][..m - 1] == tasks[..m - 1];
      var share, n := Share(tasks, hi - 1), Concurrency(tasks[..m - 1], hi - 1) as real;
      assert (n + 1.0) * share == n * share + share;
    }
  }

  lemma {:induction false} ChargedToAllIsBusy(tasks: seq<Task>, lo: int, hi: int)
    requires lo <= hi
    ensures ChargedToFirst(tasks, |tasks|, lo, hi) == Busy(tasks, lo, hi) as real
    decreases hi - lo
  {
    if lo == hi {
      NothingCharged(tasks, |tasks|, lo);
    } else {
      ChargedToAllIsBusy(tasks, lo, hi - 1);
      OneMoreMillisecond(tasks, |tasks|, lo, hi);
      assert tasks[..|tasks|] == tasks;
    }
  }

  lemma {:induction false} NothingCharged(tasks: seq<Task>, m: nat, lo: int)
    requires m <= |tasks|
    ensures ChargedToFirst(tasks, m, lo, lo) == 0.0
  {
    if m > 0 {
      NothingCharged(tasks, m - 1, lo);
    }
  }

  lemma {:induction false} SumOfWeights(tasks: seq<Task>, weights: seq<real>, lo: int, hi: int)
    requires |weights| <= |tasks| && lo <= hi && WellOrdered(tasks)
    requires forall j :: 0 <= j < |tasks| ==> lo <= tasks[j].start && tasks[j].end <= hi
    requires forall j :: 0 <= j < |weights| ==> weights[j] == Weight(tasks, j)
    ensures Sum(weights) == ChargedToFirst(tasks, |weights|, lo, hi)
  {
    if weights != [] {
      var last := |weights| - 1;
      SumOfWeights(tasks, weights[..last], lo, hi);
      ChargedToIsWeight(tasks, last, lo, hi);
    }
  }

  /** Conservation: the weights of all tasks add up to the time in which some
      task runs, so to at most latest minus earliest, and to exactly that when
      and only when there is no idle millisecond. */
  lemma WeightsAddUpToBusyTime(tasks: seq<Task>, weights: seq<real>, earliest: int, latest: int)
    requires WellOrdered(tasks) && |weights| == |tasks| && earliest <= latest
    requires forall j :: 0 <= j < |tasks| ==> earliest <= tasks[j].start && tasks[j].end <= latest
    requires forall j :: 0 <= j < |tasks| ==> weights[j] == Weight(tasks, j)
    ensures Sum(weights) == Busy(tasks, earliest, latest) as real
    ensures Sum(weights) <= (latest - earliest) as real
    ensures Sum(weights) == (latest - earliest) as real <==>
            forall t :: earliest <= t < latest ==> SomeTaskRuns(tasks, t)
  {
    SumOfWeights(tasks, weights, earliest, latest);
    ChargedToAllIsBusy(tasks, earliest, latest);
    BusyBound(tasks, earliest, latest);
  }

  ghost predicate SomeTaskRuns(tasks: seq<Task>, t: int) {
    exists j :: 0 <= j < |tasks| && RunsAt(tasks[j], t)
  }

  lemma {:induction false} BusyBound(tasks: seq<Task>, lo: int, hi: int)
    requires lo <= hi
    ensures Busy(tasks, lo, hi) <= hi - lo
    ensures Busy(tasks, lo, hi) == hi - lo <==> forall t :: lo <= t < hi ==> SomeTaskRuns(tasks, t)
    decreases hi - lo
  {
    if lo < hi {
      BusyBound(tasks, lo, hi - 1);
      ConcurrencyPositive(tasks, hi - 1);
      assert (forall t :: lo <= t < hi ==> SomeTaskRuns(tasks, t)) <==>
             ((forall t :: lo <= t < hi - 1 ==> SomeTaskRuns(tasks, t)) && SomeTaskRuns(tasks, hi - 1));
    }
  }

  lemma {:induction false} ConcurrencyPositive(tasks: seq<Task>, t: int)
    ensures Concurrency(tasks, t) > 0 <==> SomeTaskRuns(tasks, t)
  {
    if tasks != [] {
      var rest := tasks[..|tasks| - 1];
      ConcurrencyPositive(rest, t);
      if j :| 0 <= j < |rest| && RunsAt(rest[j], t) {
        assert RunsAt(tasks[j], t);
      }
    }
  }

  /** The assertion of WeightedDuration, and its counterpart: a weight is at most
      the duration, and at least the duration divided by the peak concurrency. */
  lemma WeightBounds(tasks: seq<Task>, j: nat, peak: nat)
    requires j < |tasks| && tasks[j].start <= tasks[j].end && peak > 0
    requires forall t :: tasks[j].start <= t < tasks[j].end ==> Concurrency(tasks, t) <= peak
    ensures (tasks[j].end - tasks[j].start) as real / peak as real <= Weight(tasks, j)
    ensures Weight(tasks, j) <= (tasks[j].end - tasks[j].start) as real
  {
    forall t | tasks[j].start <= t < tasks[j].end ensures 1 <= Concurrency(tasks, t) {
      ConcurrencyPositive(tasks, t);
      assert RunsAt(tasks[j], t);
    }
    ChargedBounds(tasks, tasks[j].start, tasks[j].end, peak);
  }

  lemma {:induction false} ChargedBounds(tasks: seq<Task>, lo: int, hi: int, peak: nat)
    requires lo <= hi && peak > 0
    requires forall t :: lo <= t < hi ==> 1 <= Concurrency(tasks, t) <= peak
    ensures (hi - lo) as real / peak as real <= Charged(tasks, lo, hi) <= (hi - lo) as real
    decreases hi - lo
  {
    if lo < hi {
      ChargedBounds(tasks, lo, hi - 1, peak);
      ShareBounds(Concurrency(tasks, hi - 1), peak);
      OneMoreShare(hi - lo, peak);
    }
  }

  lemma ShareBounds(n: nat, peak: nat)
    requires 1 <= n <= peak
    ensures 1.0 / peak as real <= 1.0 / n as real <= 1.0
  {
  }

  // ------------------------------------------- order of entries and ties

  lemma {:induction false} ConcurrencyInsert(a: seq<Task>, x: Task, b: seq<Task>, t: int)
    ensures Concurrency(a + [x] + b, t) == Concurrency(a + b, t) + if RunsAt(x, t) then 1 else 0
    decreases |b|
  {
    if b == [] {
      assert a + [x] + b == a + [x] && a + b == a && (a + [x])[..|a|] == a;
    } else {
      var rest, last := b[..|b| - 1], b[|b| - 1];
      ConcurrencyInsert(a, x, rest, t);
      assert (a + [x] + b)[..|a| + |b|] == a + [x] + rest;
      assert (a + b)[..|a| + |b| - 1] == a + rest;
    }
  }

  /** Listing the entries in another order changes no weight; the order of tied
      events cannot matter either, since Sweep meets its contract for every one. */
  lemma WeightIgnoresEntryOrder(tasks: seq<Task>, tasks': seq<Task>, i: nat, j: nat)
    requires multiset(tasks) == multiset(tasks')
    requires i < |tasks| && j < |tasks'| && tasks[i] == tasks'[j]
    ensures Weight(tasks, i) == Weight(tasks', j)
  {
    ChargedPermuted(tasks, tasks', tasks[i].start, tasks[i].end);
  }

  lemma {:induction false} ChargedPermuted(tasks: seq<Task>, tasks': seq<Task>, lo: int, hi: int)
    requires multiset(tasks) == multiset(tasks')
    ensures Charged(tasks, lo, hi) == Charged(tasks', lo, hi)
    decreases hi - lo
  {
    if lo < hi {
      ChargedPermuted(tasks, tasks', lo, hi - 1);
      ConcurrencyPermuted(tasks, tasks', hi - 1);
    }
  }

  /** Where the last element of `s` sits in its rearrangement `s'`. */
  lemma RemoveLast(s: seq<Task>, s': seq<Task>) returns (a: seq<Task>, b: seq<Task>)
    requires s != [] && multiset(s) == multiset(s')
    ensures s' == a + [s[|s| - 1]] + b && multiset(s[..|s| - 1]) == multiset(a + b)
  {
    var rest, x := s[..|s| - 1], s[|s| - 1];
    assert s == rest + [x];
    assert x in multiset(s');
    var k :| 0 <= k < |s'| && s'[k] == x;
    a, b := s'[..k], s'[k + 1..];
    assert s' == a + [x] + b;
    assert multiset(rest) == multiset(s) - multiset{x};
    assert multiset(a + b) == multiset(s') - multiset{x};
  }

  lemma {:induction false} ConcurrencyPermuted(tasks: seq<Task>, tasks': seq<Task>, t: int)
    requires multiset(tasks) == multiset(tasks')
    ensures Concurrency(tasks, t) == Concurrency(tasks', t)
    decreases |tasks|
  {
    if tasks == [] {
      assert |multiset(tasks)| == 0 && |multiset(tasks')| == |tasks'|;
    } else {
      var rest, x := tasks[..|tasks| - 1], tasks[|tasks| - 1];
      var a, b := RemoveLast(tasks, tasks');
      ConcurrencyPermuted(rest, a + b, t);
      ConcurrencyInsert(a, x, b, t);
    }
  }

  // ---------------------------------------------------- extent of the build

  /** The running `earliest`, where a negative value stands for "none yet". */
  function Earliest(tasks: seq<Task>): int {
    if tasks == [] then -1
    else
      var sofar, start := Earliest(tasks[..|tasks| - 1]), tasks[|tasks| - 1].start;
      if sofar < 0 || start < sofar then start else sofar
  }

  method Extent(tasks: seq<Task>) returns (earliest: int, latest: int, cpuTime: int)
    ensures earliest == Earliest(tasks)
    ensures latest >= 0 && (forall j :: 0 <= j < |tasks| ==> tasks[j].end <= latest)
    ensures latest == 0 || exists j :: 0 <= j < |tasks| && tasks[j].end == latest
    ensures cpuTime == CpuTime(tasks)
  {
    earliest, latest, cpuTime := -1, 0, 0;
    for i := 0 to |tasks|
      invariant earliest == Earliest(tasks[..i]) && cpuTime == CpuTime(tasks[..i])
      invariant latest >= 0 && (forall j :: 0 <= j < i ==> tasks[j].end <= latest)
      invariant latest == 0 || exists j :: 0 <= j < i && tasks[j].end == latest
    {
      var target := tasks[i];
      if earliest < 0 || target.start < earliest {
        earliest := target.start;
      }
      if target.end > latest {
        latest := target.end;
      }
      cpuTime := cpuTime + (target.end - target.start);
      assert tasks[..i + 1][..i] == tasks[..i];
    }
    assert tasks[..|tasks|] == tasks;
  }

  function CpuTime(tasks: seq<Task>): int {
    if tasks == [] then 0
    else CpuTime(tasks[..|tasks| - 1]) + (tasks[|tasks| - 1].end - tasks[|tasks| - 1].start)
  }

  /** The tasks running in each millisecond, added up. */
  function Load(tasks: seq<Task>, lo: int, hi: int): nat
    decreases hi - lo
  {
    if hi <= lo then 0 else Load(tasks, lo, hi - 1) + Concurrency(tasks, hi - 1)
  }

  /** The milliseconds from `lo` up to `hi` in which the task runs. */
  function RunTime(task: Task, lo: int, hi: int): nat
    decreases hi - lo
  {
    if hi <= lo then 0 else RunTime(task, lo, hi - 1) + if RunsAt(task, hi - 1) then 1 else 0
  }

  lemma {:induction false} RunTimeIs(task: Task, lo: int, hi: int)
    requires lo <= task.start <= task.end && lo <= hi
    ensures RunTime(task, lo, hi) == if hi <= task.start then 0 else if hi <= task.end then hi - task.start else task.end - task.start
    decreases hi - lo
  {
    if lo < hi {
      RunTimeIs(task, lo, hi - 1);
    }
  }

  lemma {:induction false} LoadSplits(tasks: seq<Task>, lo: int, hi: int)
    requires tasks != []
    ensures Load(tasks, lo, hi) == Load(tasks[..|tasks| - 1], lo, hi) + RunTime(tasks[|tasks| - 1], lo, hi)
    decreases hi - lo
  {
    if lo < hi {
      LoadSplits(tasks, lo, hi - 1);
    }
  }

  lemma {:induction false} NoLoad(lo: int, hi: int)
    ensures Load([], lo, hi) == 0
    decreases hi - lo
  {
    if lo < hi {
      NoLoad(lo, hi - 1);
    }
  }

  /** The processor time is the number of tasks running, added up over all
      milliseconds of the build. */
  lemma {:induction false} CpuTimeIsLoad(tasks: seq<Task>, lo: int, hi: int)
    requires WellOrdered(tasks) && lo <= hi && forall j :: 0 <= j < |tasks| ==> lo <= tasks[j].start && tasks[j].end <= hi
    ensures CpuTime(tasks) == Load(tasks, lo, hi)
  {
    if tasks == [] {
      NoLoad(lo, hi);
    } else {
      CpuTimeIsLoad(tasks[..|tasks| - 1], lo, hi);
      RunTimeIs(tasks[|tasks| - 1], lo, hi);
      LoadSplits(tasks, lo, hi);
    }
  }

  ghost predicate IsLeastStart(tasks: seq<Task>, m: int)
  {
    && (exists j :: 0 <= j < |tasks| && tasks[j].start == m)
    && forall j :: 0 <= j < |tasks| ==> m <= tasks[j].start
  }

  /** The sentinel -1 doubles as a time: `earliest` is the least start exactly
      when no start is negative or the last entry has the least start. */
  lemma {:induction false} EarliestIsLeastIff(tasks: seq<Task>)
    requires tasks != []
    ensures IsLeastStart(tasks, Earliest(tasks)) <==>
            (|| (forall j :: 0 <= j < |tasks| ==> tasks[j].start >= 0)
             || IsLeastStart(tasks, tasks[|tasks| - 1].start))
  {
    var rest, start := tasks[..|tasks| - 1], tasks[|tasks| - 1].start;
    assert tasks[|tasks| - 1].start == start;
    EarliestBound(rest);
    if forall j :: 0 <= j < |tasks| ==> tasks[j].start >= 0 {
      EarliestOfTimes(tasks);
    }
  }

  /** A negative start is forgotten at the next entry. */
  lemma NegativeStartIsLost()
    ensures var tasks := [Task(-5, 1), Task(3, 4)];
            Earliest(tasks) == 3 && !IsLeastStart(tasks, Earliest(tasks))
  {
    var tasks := [Task(-5, 1), Task(3, 4)];
    assert tasks[..1] == [Task(-5, 1)] && tasks[..1][..0] == [];
    assert tasks[0].start == -5;
  }

  /** A negative `earliest` is the start of the last entry. */
  lemma {:induction false} EarliestBound(tasks: seq<Task>)
    ensures tasks != [] && Earliest(tasks) < 0 ==> Earliest(tasks) == tasks[|tasks| - 1].start
  {
    if tasks != [] {
      EarliestBound(tasks[..|tasks| - 1]);
    }
  }

  lemma {:induction false} EarliestOfTimes(tasks: seq<Task>)
    requires tasks != [] && forall j :: 0 <= j < |tasks| ==> tasks[j].start >= 0
    ensures IsLeastStart(tasks, Earliest(tasks))
  {
    if |tasks| > 1 {
      var rest := tasks[..|tasks| - 1];
      EarliestOfTimes(rest);
      var j :| 0 <= j < |rest| && rest[j].start == Earliest(rest);
      assert tasks[j].start == Earliest(rest);
    }
    assert Earliest(tasks) == tasks[|tasks| - 1].start || Earliest(tasks) == Earliest(tasks[..|tasks| - 1]);
  }

  /** SummarizeEntries up to the printing: the reported length and the sweep. On
      a log with nonnegative start times the weighted total never exceeds the
      length, and equals it exactly when the build was never idle. */
  method Summarize(tasks: seq<Task>, events: seq<Event>) returns (length: int, r: Report)
    requires IsSchedule(tasks, events)
    ensures r.Weighted? <==> tasks != [] && WellOrdered(tasks)
    ensures r.Weighted? && (forall j :: 0 <= j < |tasks| ==> tasks[j].start >= 0) ==>
              exists earliest, latest ::
                && IsLeastStart(tasks, earliest) && length == latest - earliest
                && r.total == Busy(tasks, earliest, latest) as real <= length as real
                && (r.total == length as real <==>
                      forall t :: earliest <= t < latest ==> SomeTaskRuns(tasks, t))
  {
    var earliest, latest, _ := Extent(tasks);
    length := latest - earliest;
    r := Sweep(tasks, events);
    if r.Weighted? && forall j :: 0 <= j < |tasks| ==> tasks[j].start >= 0 {
      EarliestOfTimes(tasks);
      assert tasks[0].start <= tasks[0].end;
      WeightsAddUpToBusyTime(tasks, r.weights, earliest, latest);
    }
  }
}
