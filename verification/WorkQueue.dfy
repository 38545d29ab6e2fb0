/** The sentinel-terminated prompt queue of
    benchmarks/benchmark_hidden_state_extraction.py: clients share one FIFO and
    are scheduled in any order; a request may also raise and end its client. */
module WorkQueue {

  datatype Item = Prompt(idx: nat) | Sentinel

  datatype Client = Waiting | Working(idx: nat) | Exited | Raised(idx: nat)

  /** `results` holds the prompts answered, in order of completion. */
  datatype State = State(queue: seq<Item>, clients: seq<Client>, results: seq<nat>)

  // ----------------------------------------------------------------- steps

  /** One pass of _client_loop through an await: taking the head of the queue,
      or the end of a request, normal or by an exception. */
  predicate ClientStep(s: State, i: nat, s': State)
    requires i < |s.clients|
  {
    match s.clients[i]
    case Waiting =>
      && s.queue != []
      && s' == s.(queue := s.queue[1..],
                  clients := s.clients[i := if s.queue[0].Sentinel? then Exited else Working(s.queue[0].idx)])
    case Working(idx) =>
      || s' == s.(clients := s.clients[i := Waiting], results := s.results + [idx])
      || s' == s.(clients := s.clients[i := Raised(idx)])
    case _ => false
  }

  ghost predicate Next(s: State, s': State) {
    exists i: nat :: i < |s.clients| && ClientStep(s, i, s')
  }

  function Pending(next: nat, prompts: nat, sentinels: nat): seq<Item>
    requires next <= prompts
  {
    seq(prompts - next, i requires 0 <= i => Prompt(next + i)) + seq(sentinels, _ => Sentinel)
  }

  function Initial(prompts: nat, clients: nat): State {
    State(Pending(0, prompts, clients), seq(clients, _ => Waiting), [])
  }

  /** The queue filling of _run_extraction_async. */
  method Fill(prompts: nat, clients: nat) returns (queue: seq<Item>)
    ensures queue == Initial(prompts, clients).queue
  {
    queue := [];
    for idx := 0 to prompts
      invariant queue == seq(idx, i requires 0 <= i => Prompt(0 + i))
    {
      queue := queue + [Prompt(idx)];
    }
    ghost var jobs := queue;
    for c := 0 to clients
      invariant queue == jobs + seq(c, _ => Sentinel)
    {
      queue := queue + [Sentinel];
    }
  }

  ghost predicate IsRun(run: seq<State>, prompts: nat, clients: nat)
  {
    && |run| > 0 && run[0] == Initial(prompts, clients)
    && forall k :: 0 <= k < |run| - 1 ==> Next(run[k], run[k + 1])
  }

  // ------------------------------------------------------------- invariant

  function Holds(c: Client, idx: nat): nat {
    if (c.Working? || c.Raised?) && c.idx == idx then 1 else 0
  }

  /** How many clients took prompt `idx` and did not answer it: they hold it, or
      it was lost with them. */
  ghost function Held(clients: seq<Client>, idx: nat): nat {
    if clients == [] then 0 else Held(clients[..|clients| - 1], idx) + Holds(clients[|clients| - 1], idx)
  }

  ghost function NotExited(clients: seq<Client>): nat {
    if clients == [] then 0
    else NotExited(clients[..|clients| - 1]) + if clients[|clients| - 1].Exited? then 0 else 1
  }

  ghost function InFlight(clients: seq<Client>): nat {
    if clients == [] then 0
    else InFlight(clients[..|clients| - 1]) + if clients[|clients| - 1].Working? then 1 else 0
  }

  /** Prompts below `next` are answered or held exactly once, others never. */
  ghost predicate ExactlyOnce(s: State, next: nat) {
    forall idx: nat :: multiset(s.results)[idx] + Held(s.clients, idx) == if idx < next then 1 else 0
  }

  /** `next` prompts were taken; a sentinel is left for every client that has
      not taken one; every prompt taken is answered or held, exactly once. */
  ghost predicate Inv(s: State, prompts: nat, clients: nat, next: nat, left: nat)
  {
    && next <= prompts && |s.clients| == clients
    && s.queue == Pending(next, prompts, left)
    && left == NotExited(s.clients) && (left < clients ==> next == prompts)
    && ExactlyOnce(s, next)
  }

  /** Changing one client changes the counts by that client alone. */
  lemma {:induction false} OneClient(clients: seq<Client>, i: nat, c: Client)
    requires i < |clients|
    ensures NotExited(clients[i := c]) + (if clients[i].Exited? then 0 else 1)
            == NotExited(clients) + if c.Exited? then 0 else 1
    ensures InFlight(clients[i := c]) + (if clients[i].Working? then 1 else 0)
            == InFlight(clients) + if c.Working? then 1 else 0
  {
    var last := |clients| - 1;
    if i < last {
      OneClient(clients[..last], i, c);
      assert clients[i := c][..last] == clients[..last][i := c];
    } else {
      assert clients[i := c][..last] == clients[..last];
    }
  }

  lemma {:induction false} OneClientHolds(clients: seq<Client>, i: nat, c: Client, idx: nat)
    requires i < |clients|
    ensures Held(clients[i := c], idx) + Holds(clients[i], idx) == Held(clients, idx) + Holds(c, idx)
  {
    var last := |clients| - 1;
    if i < last {
      OneClientHolds(clients[..last], i, c, idx);
      assert clients[i := c][..last] == clients[..last][i := c];
    } else {
      assert clients[i := c][..last] == clients[..last];
    }
  }

  lemma {:induction false} FreshClients(clients: seq<Client>)
    requires forall i :: 0 <= i < |clients| ==> clients[i].Waiting?
    ensures NotExited(clients) == |clients| && InFlight(clients) == 0
    ensures forall idx :: Held(clients, idx) == 0
  {
    if clients != [] {
      FreshClients(clients[..|clients| - 1]);
    }
  }

  lemma StepKeepsOnce(s: State, i: nat, s': State, next: nat, next': nat)
    requires ExactlyOnce(s, next) && i < |s.clients| && ClientStep(s, i, s')
    requires s'.clients[i].Working? ==> s'.clients[i].idx == next
    requires next' == if s'.clients[i].Working? then next + 1 else next
    ensures ExactlyOnce(s', next')
  {
    forall idx: nat
      ensures multiset(s'.results)[idx] + Held(s'.clients, idx) == if idx < next' then 1 else 0
    {
      OneClientHolds(s.clients, i, s'.clients[i], idx);
      assert s'.clients == s.clients[i := s'.clients[i]];
    }
  }

  lemma StepKeepsInv(s: State, i: nat, s': State, prompts: nat, clients: nat, next: nat, left: nat)
    returns (next': nat, left': nat)
    requires Inv(s, prompts, clients, next, left) && i < |s.clients| && ClientStep(s, i, s')
    ensures Inv(s', prompts, clients, next', left')
  {
    next', left' := next, left;
    OneClient(s.clients, i, s'.clients[i]);
    if s.clients[i].Waiting? {
      if next < prompts {
        next' := next + 1;
        assert Pending(next, prompts, left)[1..] == Pending(next + 1, prompts, left);
      } else {
        left' := left - 1;
        assert Pending(next, prompts, left)[1..] == Pending(next, prompts, left - 1);
      }
    }
    StepKeepsOnce(s, i, s', next, next');
  }

  lemma {:induction false} RunInv(run: seq<State>, k: nat, prompts: nat, clients: nat)
    returns (next: nat, left: nat)
    requires IsRun(run, prompts, clients) && k < |run|
    ensures Inv(run[k], prompts, clients, next, left)
  {
    if k == 0 {
      FreshClients(run[0].clients);
      next, left := 0, clients;
    } else {
      next, left := RunInv(run, k - 1, prompts, clients);
      assert Next(run[k - 1], run[k - 1 + 1]);
      var i: nat :| i < |run[k - 1].clients| && ClientStep(run[k - 1], i, run[k]);
      next, left := StepKeepsInv(run[k - 1], i, run[k], prompts, clients, next, left);
    }
  }

  // -------------------------------------------------------------- theorems

  lemma {:induction false} CountsSeeClients(clients: seq<Client>, i: nat)
    requires i < |clients|
    ensures !clients[i].Exited? ==> NotExited(clients) > 0
    ensures clients[i].Exited? ==> NotExited(clients) < |clients|
    ensures NotExited(clients) <= |clients|
  {
    var last := |clients| - 1;
    if last > 0 {
      CountsSeeClients(clients[..last], if i < last then i else 0);
    }
  }

  /** In every state of every run, the clients that have not exited are as many
      as the sentinels still queued behind the remaining prompts. So a client
      that calls `get` always finds an item. */
  lemma NoClientBlocks(run: seq<State>, k: nat, prompts: nat, clients: nat)
    requires IsRun(run, prompts, clients) && k < |run|
    ensures exists next: nat :: next <= prompts && run[k].queue == Pending(next, prompts, NotExited(run[k].clients))
    ensures forall i :: 0 <= i < |run[k].clients| && run[k].clients[i].Waiting? ==> run[k].queue != []
    ensures (exists i :: 0 <= i < |run[k].clients| && (run[k].clients[i].Waiting? || run[k].clients[i].Working?)) ==>
              exists s' :: Next(run[k], s')
  {
    var s := run[k];
    var next, left := RunInv(run, k, prompts, clients);
    forall i | 0 <= i < |s.clients| && s.clients[i].Waiting? ensures s.queue != [] {
      CountsSeeClients(s.clients, i);
    }
    if i :| 0 <= i < |s.clients| && (s.clients[i].Waiting? || s.clients[i].Working?) {
      var s' := if s.clients[i].Working?
                then s.(clients := s.clients[i := Waiting], results := s.results + [s.clients[i].idx])
                else s.(queue := s.queue[1..], clients := s.clients[i := if s.queue[0].Sentinel? then Exited
                                                                         else Working(s.queue[0].idx)]);
      assert ClientStep(s, i, s');
      assert Next(s, s');
    }
  }

  /** Every schedule ends: at most two steps per queued item. */
  lemma {:induction false} RunIsShort(run: seq<State>, k: nat, prompts: nat, clients: nat)
    requires IsRun(run, prompts, clients) && k < |run|
    ensures k + 2 * |run[k].queue| + InFlight(run[k].clients) <= 2 * (prompts + clients)
  {
    if k == 0 {
      FreshClients(run[0].clients);
    } else {
      RunIsShort(run, k - 1, prompts, clients);
      assert Next(run[k - 1], run[k - 1 + 1]);
      var i: nat :| i < |run[k - 1].clients| && ClientStep(run[k - 1], i, run[k]);
      OneClient(run[k - 1].clients, i, run[k].clients[i]);
    }
  }

  /** When gather returns normally, so with every client exited and at least one
      of them, the queue is empty and every prompt was answered exactly once. */
  lemma AllExited(run: seq<State>, k: nat, prompts: nat, clients: nat)
    requires IsRun(run, prompts, clients) && k < |run| && clients >= 1
    requires forall i :: 0 <= i < |run[k].clients| ==> run[k].clients[i].Exited?
    ensures run[k].queue == []
    ensures forall idx: nat :: multiset(run[k].results)[idx] == if idx < prompts then 1 else 0
  {
    var next, left := RunInv(run, k, prompts, clients);
    CountsSeeClients(run[k].clients, 0);
    NobodyLeft(run[k].clients);
  }

  lemma {:induction false} NobodyLeft(clients: seq<Client>)
    requires forall i :: 0 <= i < |clients| ==> clients[i].Exited?
    ensures NotExited(clients) == 0 && forall idx :: Held(clients, idx) == 0
  {
    if clients != [] {
      NobodyLeft(clients[..|clients| - 1]);
    }
  }

  /** With raised requests: as soon as one client has exited, every prompt has
      been taken, and is answered exactly once unless its own request raised. */
  lemma OneExitMeansAllTaken(run: seq<State>, k: nat, prompts: nat, clients: nat, i: nat)
    requires IsRun(run, prompts, clients) && k < |run|
    requires i < |run[k].clients| && run[k].clients[i].Exited?
    ensures run[k].queue == Pending(prompts, prompts, NotExited(run[k].clients))
    ensures ExactlyOnce(run[k], prompts)
  {
    var next, left := RunInv(run, k, prompts, clients);
    CountsSeeClients(run[k].clients, i);
  }

  // ------------------------------------------------------------- requests that raise

  /** A request may raise: its client stops, and its prompt is lost. */
  lemma RaisingLosesThePrompt(run: seq<State>, prompts: nat, clients: nat, i: nat) returns (longer: seq<State>)
    requires IsRun(run, prompts, clients) && i < |run[|run| - 1].clients| && run[|run| - 1].clients[i].Working?
    ensures IsRun(longer, prompts, clients) && run < longer
    ensures var s := longer[|longer| - 1];
            && i < |s.clients| && s.clients[i] == Raised(run[|run| - 1].clients[i].idx)
            && run[|run| - 1].clients[i].idx !in s.results
  {
    var s := run[|run| - 1];
    var s' := s.(clients := s.clients[i := Raised(s.clients[i].idx)]);
    longer := run + [s'];
    assert ClientStep(s, i, s');
    assert Next(s, s');
    assert IsRun(longer, prompts, clients);
    LostIsNotAnswered(longer, |run|, prompts, clients, i);
  }

  /** In every state of every run, the prompt of a client that raised is unanswered. */
  lemma LostIsNotAnswered(run: seq<State>, k: nat, prompts: nat, clients: nat, i: nat)
    requires IsRun(run, prompts, clients) && k < |run| && i < |run[k].clients| && run[k].clients[i].Raised?
    ensures run[k].clients[i].idx !in run[k].results
  {
    var next, left := RunInv(run, k, prompts, clients);
    var s, idx := run[k], run[k].clients[i].idx;
    HeldAtLeast(s.clients, i, idx);
    assert multiset(s.results)[idx] + Held(s.clients, idx) <= 1;
  }

  lemma {:induction false} HeldAtLeast(clients: seq<Client>, i: nat, idx: nat)
    requires i < |clients|
    ensures Held(clients, idx) >= Holds(clients[i], idx)
  {
    if i < |clients| - 1 {
      HeldAtLeast(clients[..|clients| - 1], i, idx);
    }
  }
}
