/** Why the partition signatures are right: a partitioned run, in which every
    partition sees only what its signature passes and hands back only what its
    signature returns, computes what the whole graph computes. */
module GraphPartitionSemantics {

  import opened GraphPartition

  // ------------------------------------------------- the unmet set, closed

  /** `n` is asked for at `j`: by partition `j`, or at the end as a graph output. */
  predicate AskedAt(g: Graph, ps: seq<Partition>, j: nat, n: Name)
    requires j <= |ps|
  {
    if j == |ps| then n in g.outputs else n in InputNames(g, ps[j])
  }

  function ReturnedBy(g: Graph, ps: seq<Partition>, l: nat): set<Name>
    requires l < |ps|
  {
    Returned(g, ps[l], Unmet(g, ps, l + 1))
  }

  ghost predicate AskedUnreturned(g: Graph, ps: seq<Partition>, i: nat, j: nat, n: Name)
    requires i <= j <= |ps|
  {
    AskedAt(g, ps, j, n) && forall l :: i <= l < j ==> n !in ReturnedBy(g, ps, l)
  }

  /** The unmet names before partition `i` are those that some later point asks
      for and no partition in between returns. */
  lemma {:induction false} UnmetClosedForm(g: Graph, ps: seq<Partition>, i: nat, n: Name)
    requires i <= |ps|
    ensures n in Unmet(g, ps, i) <==> exists j :: i <= j <= |ps| && AskedUnreturned(g, ps, i, j, n)
    decreases |ps| - i
  {
    if i == |ps| {
      assert AskedUnreturned(g, ps, i, i, n) <==> n in g.outputs;
    } else {
      UnmetClosedForm(g, ps, i + 1, n);
      if n in InputNames(g, ps[i]) {
        assert AskedUnreturned(g, ps, i, i, n);
      }
      if n in Unmet(g, ps, i + 1) && n !in ReturnedBy(g, ps, i) {
        var j :| i + 1 <= j <= |ps| && AskedUnreturned(g, ps, i + 1, j, n);
        assert AskedUnreturned(g, ps, i, j, n);
      }
      if j :| i <= j <= |ps| && AskedUnreturned(g, ps, i, j, n) {
        if j > i {
          assert n !in ReturnedBy(g, ps, i);
          assert AskedUnreturned(g, ps, i + 1, j, n);
        }
      }
    }
  }

  // ------------------------------------------------------------ hypotheses

  /** Names output before partition `j`, and before node `a` of it. */
  function OutputsBefore(ps: seq<Partition>, j: nat): set<Name>
    requires j <= |ps|
  {
    if j == 0 then {} else OutputsBefore(ps, j - 1) + OutputNames(ps[j - 1])
  }

  function Earlier(ps: seq<Partition>, j: nat, a: nat): set<Name>
    requires j < |ps| && a <= |ps[j]|
  {
    OutputsBefore(ps, j) + OutputNames(ps[j][..a])
  }

  /** A renamed buffer has storage exactly when the buffer it stands for has, and
      that one is known and not renamed itself. */
  ghost predicate RenamesResolved(g: Graph)
  {
    forall n :: n in g.realName ==>
      && n in g.buffers && IsNone(g, n) == IsNone(g, g.realName[n])
      && g.realName[n] != "" && g.realName[n] !in g.realName && g.realName[n] in Known(g)
  }

  /** A node depends on the storage it mutates under some name it did not make. */
  ghost predicate MutatesWhatItAccesses(g: Graph, node: Node)
  {
    forall o :: o in node.outputs && o in g.realName ==>
      exists x :: x in node.accesses && x !in node.outputs && Real(g, x) == Real(g, o)
  }

  ghost predicate NodeOk(g: Graph, node: Node, earlier: set<Name>)
  {
    && node.outputs <= g.buffers.Keys
    && node.outputs !! earlier + g.inputs + g.constants
    && (forall x :: x in node.accesses && x !in node.outputs && !IsNone(g, x) ==>
          x in earlier + g.inputs + g.constants)
    && MutatesWhatItAccesses(g, node)
    && node.lastUsage <= Reals(g, node.accesses)
  }

  ghost predicate NodeAtOk(g: Graph, ps: seq<Partition>, j: nat, a: nat)
    requires j < |ps| && a < |ps[j]|
  {
    NodeOk(g, ps[j][a], Earlier(ps, j, a))
  }

  /** Partitions in dependency order, each name output once, and liveness: what a
      partition frees is not used later and is no graph output. */
  ghost predicate WellScheduled(g: Graph, ps: seq<Partition>)
  {
    && RenamesResolved(g)
    && g.constants !! Known(g) && g.inputs !! g.realName.Keys
    && (forall j, a {:trigger NodeAtOk(g, ps, j, a)} :: 0 <= j < |ps| && 0 <= a < |ps[j]| ==> NodeAtOk(g, ps, j, a))
    && (forall i, l :: 0 <= i < l < |ps| ==> Freed(ps[i]) !! Reals(g, Accesses(ps[l])))
    && (forall i :: 0 <= i < |ps| ==> Freed(ps[i]) !! g.outputs)
    && (forall n :: n in g.outputs ==> n !in g.realName)
    && (forall n :: n in g.outputs && !IsNone(g, n) ==> n in OutputsBefore(ps, |ps|) + g.inputs + g.constants)
  }

  // ------------------------------------------------- members of the unions

  lemma {:induction false} OutputsAre(p: Partition, x: Name)
    ensures x in OutputNames(p) <==> exists a :: 0 <= a < |p| && x in p[a].outputs
  {
    if p != [] {
      var front := p[..|p| - 1];
      OutputsAre(front, x);
      if a :| 0 <= a < |front| && x in front[a].outputs {
        assert x in p[a].outputs;
      }
    }
  }

  lemma {:induction false} AccessesAre(p: Partition, x: Name)
    ensures x in Accesses(p) <==> exists a :: 0 <= a < |p| && x in p[a].accesses
  {
    if p != [] {
      var front := p[..|p| - 1];
      AccessesAre(front, x);
      if a :| 0 <= a < |front| && x in front[a].accesses {
        assert x in p[a].accesses;
      }
    }
  }

  lemma {:induction false} FreedAre(p: Partition, x: Name)
    ensures x in Freed(p) <==> exists a :: 0 <= a < |p| && x in p[a].lastUsage
  {
    if p != [] {
      var front := p[..|p| - 1];
      FreedAre(front, x);
      if a :| 0 <= a < |front| && x in front[a].lastUsage {
        assert x in p[a].lastUsage;
      }
    }
  }

  /** A mutation has storage exactly when the buffer it mutates has. */
  lemma NoneOfReal(g: Graph, x: Name)
    requires RenamesResolved(g)
    ensures IsNone(g, x) == IsNone(g, Real(g, x)) && Real(g, x) !in g.realName
  {
  }

  // --------------------------------------------------------------- storage

  /** The storage a node writes. */
  function Stored(g: Graph, node: Node): set<Name> {
    set o | o in node.outputs && !IsNone(g, o) :: Real(g, o)
  }

  function StoredBy(g: Graph, p: Partition): set<Name> {
    if p == [] then {} else StoredBy(g, p[..|p| - 1]) + Stored(g, p[|p| - 1])
  }

  /** The storage a node may look at: all it depends on, but for the buffers it
      allocates itself. */
  function Operands(g: Graph, node: Node): set<Name> {
    set x | x in node.accesses && !IsNone(g, x) && (x in node.outputs ==> x in g.realName) :: Real(g, x)
  }

  lemma {:induction false} StoredByIs(g: Graph, p: Partition, r: Name)
    ensures r in StoredBy(g, p) <==> exists a :: 0 <= a < |p| && r in Stored(g, p[a])
  {
    if p != [] {
      var front := p[..|p| - 1];
      StoredByIs(g, front, r);
      if a :| 0 <= a < |front| && r in Stored(g, front[a]) {
        assert r in Stored(g, p[a]);
      }
    }
  }

  /** An operand is a partition input or was stored earlier in the partition. */
  lemma OperandAvailable(g: Graph, ps: seq<Partition>, j: nat, a: nat, r: Name)
    requires WellScheduled(g, ps) && j < |ps| && a < |ps[j]| && r in Operands(g, ps[j][a])
    ensures r in DirectInputs(g, ps[j]) || r in StoredBy(g, ps[j][..a])
  {
    var p, node := ps[j], ps[j][a];
    assert NodeAtOk(g, ps, j, a);
    var x := ForeignName(g, node, r);
    if x !in OutputNames(p) {
      AccessesAre(p, x);
      assert x in (set n | n in Accesses(p) && !IsNone(g, n)) - OutputNames(p);
    } else {
      OutputsAre(p, x);
      var b :| 0 <= b < |p| && x in p[b].outputs;
      assert NodeAtOk(g, ps, j, b);
      assert x in Earlier(ps, j, a);
      if b > a {
        EarlierGrows(ps, j, a, b, x);
      }
      assert b < a;
      assert p[..a][b] == p[b] && r in Stored(g, p[b]);
      StoredByIs(g, p[..a], r);
    }
  }

  lemma EarlierGrows(ps: seq<Partition>, j: nat, a: nat, b: nat, x: Name)
    requires j < |ps| && a <= b <= |ps[j]| && x in Earlier(ps, j, a)
    ensures x in Earlier(ps, j, b)
  {
    OutputsAre(ps[j][..a], x);
    OutputsAre(ps[j][..b], x);
    if c :| 0 <= c < a && x in ps[j][..a][c].outputs {
      assert x in ps[j][..b][c].outputs;
    }
  }

  /** A name of the operand that the node did not make. */
  lemma ForeignName(g: Graph, node: Node, r: Name) returns (x: Name)
    requires RenamesResolved(g) && MutatesWhatItAccesses(g, node) && r in Operands(g, node)
    ensures x in node.accesses && x !in node.outputs && !IsNone(g, x) && Real(g, x) == r
  {
    x :| x in node.accesses && !IsNone(g, x) && (x in node.outputs ==> x in g.realName) && Real(g, x) == r;
    NoneOfReal(g, x);
    if x in node.outputs {
      x :| x in node.accesses && x !in node.outputs && Real(g, x) == r;
      NoneOfReal(g, x);
    }
  }

  /** What a partition stores is its own buffer, or an input it mutates. */
  lemma {:induction false} StoredIsOwnOrInput(g: Graph, ps: seq<Partition>, j: nat, a: nat, r: Name)
    requires WellScheduled(g, ps) && j < |ps| && a <= |ps[j]| && r in StoredBy(g, ps[j][..a])
    ensures r in OutputNames(ps[j]) || r in DirectInputs(g, ps[j])
    decreases a
  {
    var p := ps[j];
    if a > 0 {
      assert p[..a][..a - 1] == p[..a - 1];
      if r in StoredBy(g, p[..a - 1]) {
        StoredIsOwnOrInput(g, ps, j, a - 1, r);
      } else {
        var node := p[a - 1];
        assert NodeAtOk(g, ps, j, a - 1);
        var o :| o in node.outputs && !IsNone(g, o) && Real(g, o) == r;
        OutputsAre(p, o);
        if o in g.realName {
          var x :| x in node.accesses && x !in node.outputs && Real(g, x) == Real(g, o);
          NoneOfReal(g, o);
          NoneOfReal(g, x);
          assert r in Operands(g, node);
          OperandAvailable(g, ps, j, a - 1, r);
        }
      }
    }
  }

  // -------------------------------------------------- facts about unmet sets

  /** Every input with storage is a direct one. */
  lemma DataInputsAreDirect(g: Graph, ps: seq<Partition>, j: nat, n: Name)
    requires WellScheduled(g, ps) && j < |ps| && n in InputNames(g, ps[j]) && !IsNone(g, n)
    ensures n in DirectInputs(g, ps[j])
  {
    var p := ps[j];
    if n !in DirectInputs(g, p) {
      FreedAre(p, n);
      var a :| 0 <= a < |p| && n in p[a].lastUsage;
      assert NodeAtOk(g, ps, j, a);
      var x :| x in p[a].accesses && Real(g, x) == n;
      NoneOfReal(g, x);
      if x in p[a].outputs && x !in g.realName {
        OutputsAre(p, x);
      } else {
        assert n in Operands(g, p[a]);
        OperandAvailable(g, ps, j, a, n);
        StoredGrows(g, p, a, n);
        StoredIsOwnOrInput(g, ps, j, |p|, n);
      }
    }
  }

  lemma StoredGrows(g: Graph, p: Partition, a: nat, r: Name)
    requires a <= |p| && r in StoredBy(g, p[..a])
    ensures r in StoredBy(g, p[..|p|]) && r in StoredBy(g, p)
  {
    StoredByIs(g, p[..a], r);
    StoredByIs(g, p, r);
    var b :| 0 <= b < a && r in Stored(g, p[..a][b]);
    assert r in Stored(g, p[b]);
    assert p[..|p|] == p;
  }

  /** Inputs are under real names, of storage the partition accesses. */
  lemma InputsAreAccessed(g: Graph, ps: seq<Partition>, j: nat, n: Name)
    requires WellScheduled(g, ps) && j < |ps| && n in InputNames(g, ps[j])
    ensures n in Reals(g, Accesses(ps[j])) && n !in g.realName
  {
    var p := ps[j];
    if n in DirectInputs(g, p) {
      var x :| x in Accesses(p) && Real(g, x) == n;
      NoneOfReal(g, x);
    } else {
      FreedAre(p, n);
      var a :| 0 <= a < |p| && n in p[a].lastUsage;
      assert NodeAtOk(g, ps, j, a);
      var x :| x in p[a].accesses && Real(g, x) == n;
      AccessesAre(p, x);
      NoneOfReal(g, x);
    }
  }

  /** An unmet name is a real name, wanted later and not freed before. */
  lemma {:induction false} UnmetIsLive(g: Graph, ps: seq<Partition>, i: nat, n: Name)
    requires WellScheduled(g, ps) && i <= |ps| && n in Unmet(g, ps, i)
    ensures n !in g.realName
    ensures forall l :: 0 <= l < i ==> n !in Freed(ps[l])
    decreases |ps| - i
  {
    if i < |ps| {
      if n in InputNames(g, ps[i]) {
        InputsAreAccessed(g, ps, i, n);
      } else {
        UnmetIsLive(g, ps, i + 1, n);
      }
    }
  }

  // ------------------------------------------------- everything is supplied

  function StoredBefore(g: Graph, ps: seq<Partition>, i: nat): set<Name>
    requires i <= |ps|
  {
    if i == 0 then {} else StoredBefore(g, ps, i - 1) + StoredBy(g, ps[i - 1])
  }

  lemma {:induction false} OutputsAreStored(g: Graph, ps: seq<Partition>, i: nat, x: Name)
    requires i <= |ps| && x in OutputsBefore(ps, i) && !IsNone(g, x)
    ensures Real(g, x) in StoredBefore(g, ps, i)
  {
    if x in OutputNames(ps[i - 1]) {
      OutputsAre(ps[i - 1], x);
      var a :| 0 <= a < |ps[i - 1]| && x in ps[i - 1][a].outputs;
      assert Real(g, x) in Stored(g, ps[i - 1][a]);
      StoredByIs(g, ps[i - 1], Real(g, x));
    } else {
      OutputsAreStored(g, ps, i - 1, x);
    }
  }

  lemma StorageIsKnown(g: Graph, ps: seq<Partition>, j: nat, r: Name)
    requires WellScheduled(g, ps) && j < |ps| && r in StoredBy(g, ps[j])
    ensures r in Known(g) && r !in g.constants
  {
    StoredByIs(g, ps[j], r);
    var a :| 0 <= a < |ps[j]| && r in Stored(g, ps[j][a]);
    assert NodeAtOk(g, ps, j, a);
  }

  /** A name still wanted that a partition makes or takes, it gives back. */
  lemma KeptIsReturned(g: Graph, ps: seq<Partition>, i: nat, n: Name)
    requires WellScheduled(g, ps) && i < |ps| && n in Unmet(g, ps, i + 1)
    requires n in OutputNames(ps[i]) || (n in InputNames(g, ps[i]) && n in Known(g))
    ensures n in ReturnedBy(g, ps, i)
  {
    UnmetIsLive(g, ps, i + 1, n);
    assert Real(g, n) == n;
  }

  /** A name that a partition accesses but does not output was there before. */
  lemma AccessedBefore(g: Graph, ps: seq<Partition>, i: nat, a: nat, x: Name)
    requires WellScheduled(g, ps) && i < |ps| && a < |ps[i]|
    requires x in ps[i][a].accesses && !IsNone(g, x) && x !in OutputNames(ps[i])
    ensures x in g.inputs + g.constants + OutputsBefore(ps, i)
  {
    var p := ps[i];
    assert NodeAtOk(g, ps, i, a);
    OutputsAre(p, x);
    OutputsAre(p[..a], x);
    assert forall b :: 0 <= b < a ==> p[..a][b] == p[b];
  }

  /** Where a direct input comes from. */
  lemma DirectInputDefined(g: Graph, ps: seq<Partition>, i: nat, n: Name)
    requires WellScheduled(g, ps) && i < |ps| && n in DirectInputs(g, ps[i])
    ensures n in g.inputs + g.constants + StoredBefore(g, ps, i)
  {
    var x :| x in Accesses(ps[i]) && !IsNone(g, x) && x !in OutputNames(ps[i]) && Real(g, x) == n;
    AccessesAre(ps[i], x);
    var a :| 0 <= a < |ps[i]| && x in ps[i][a].accesses;
    AccessedBefore(g, ps, i, a, x);
    if x in OutputsBefore(ps, i) {
      OutputsAreStored(g, ps, i, x);
    }
  }

  /** Every unmet name with storage is a graph input, a constant, or in storage
      by then. */
  lemma {:induction false} UnmetIsAvailable(g: Graph, ps: seq<Partition>, i: nat, n: Name)
    requires WellScheduled(g, ps) && i <= |ps| && n in Unmet(g, ps, i) && !IsNone(g, n)
    ensures n in g.inputs + g.constants + StoredBefore(g, ps, i)
    decreases |ps| - i
  {
    if i == |ps| {
      if n in OutputsBefore(ps, |ps|) {
        OutputsAreStored(g, ps, |ps|, n);
      }
    } else if n in InputNames(g, ps[i]) {
      DataInputsAreDirect(g, ps, i, n);
      DirectInputDefined(g, ps, i, n);
    } else {
      UnmetIsAvailable(g, ps, i + 1, n);
      if n in StoredBy(g, ps[i]) {
        StoredIsReturned(g, ps, i, n);
      }
    }
  }

  /** Storage a partition writes that is still wanted, it returns. */
  lemma StoredIsReturned(g: Graph, ps: seq<Partition>, i: nat, n: Name)
    requires WellScheduled(g, ps) && i < |ps| && n in Unmet(g, ps, i + 1) && n in StoredBy(g, ps[i])
    ensures n in ReturnedBy(g, ps, i)
  {
    StorageIsKnown(g, ps, i, n);
    assert ps[i][..|ps[i]|] == ps[i];
    StoredIsOwnOrInput(g, ps, i, |ps[i]|, n);
    KeptIsReturned(g, ps, i, n);
  }

  lemma UnmetIsKnown(g: Graph, ps: seq<Partition>, i: nat, n: Name)
    requires WellScheduled(g, ps) && i <= |ps| && n in Unmet(g, ps, i) && !IsNone(g, n)
    ensures n in g.constants || n in Known(g)
  {
    UnmetIsAvailable(g, ps, i, n);
    if n in StoredBefore(g, ps, i) {
      var j := StoredBeforeIs(g, ps, i, n);
      StorageIsKnown(g, ps, j, n);
    }
  }

  lemma {:induction false} StoredBeforeIs(g: Graph, ps: seq<Partition>, i: nat, r: Name) returns (j: nat)
    requires i <= |ps| && r in StoredBefore(g, ps, i)
    ensures j < i && r in StoredBy(g, ps[j])
  {
    if r in StoredBy(g, ps[i - 1]) {
      j := i - 1;
    } else {
      j := StoredBeforeIs(g, ps, i - 1, r);
    }
  }

  /** Every name with storage that a partition takes, or the graph outputs, is a
      graph input, a constant, or returned by an earlier partition. */
  lemma EveryInputIsSupplied(g: Graph, ps: seq<Partition>, j: nat, n: Name)
    requires WellScheduled(g, ps) && j <= |ps| && AskedAt(g, ps, j, n) && !IsNone(g, n)
    ensures n in g.inputs || n in g.constants || exists l :: 0 <= l < j && n in ReturnedBy(g, ps, l)
  {
    if forall l :: 0 <= l < j ==> n !in ReturnedBy(g, ps, l) {
      assert AskedUnreturned(g, ps, 0, j, n);
      UnmetClosedForm(g, ps, 0, n);
      UnmetIsAvailable(g, ps, 0, n);
    }
  }

  /** A graph output listed under a mutation's name would never be met: only real
      names are returned, so it stays unmet before every partition. */
  lemma {:induction false} AliasOutputIsNeverMet(g: Graph, ps: seq<Partition>, i: nat, n: Name)
    requires RenamesResolved(g) && n in g.outputs && n in g.realName && i <= |ps|
    ensures n in Unmet(g, ps, i)
    decreases |ps| - i
  {
    if i < |ps| {
      AliasOutputIsNeverMet(g, ps, i + 1, n);
      if n in ReturnedBy(g, ps, i) {
        var m :| Real(g, m) == n;
        NoneOfReal(g, m);
      }
    }
  }

  /** The lookup name_to_node[name] of the outputs never fails. */
  lemma OutputsAreKnown(g: Graph, ps: seq<Partition>, skips: seq<bool>, i: nat)
    requires WellScheduled(g, ps) && i < |ps| == |skips|
    ensures SignatureAt(g, ps, skips, i).outputs <= Known(g)
  {
    forall n | n in ReturnedBy(g, ps, i) ensures n in Known(g) {
      var m :| Real(g, m) == n && (m in OutputNames(ps[i]) || m in Known(g));
      RealIsKnown(g, ps, i, m);
    }
  }

  lemma RealIsKnown(g: Graph, ps: seq<Partition>, i: nat, m: Name)
    requires WellScheduled(g, ps) && i < |ps| && (m in OutputNames(ps[i]) || m in Known(g))
    ensures Real(g, m) in Known(g)
  {
    if m in OutputNames(ps[i]) {
      OutputsAre(ps[i], m);
      var a :| 0 <= a < |ps[i]| && m in ps[i][a].outputs;
      assert NodeAtOk(g, ps, i, a);
    }
  }

  // ------------------------------------------------------------- execution

  type Value = int
  type Env = map<Name, Value>

  /** What a node computes for a storage it writes, from its operands. */
  type Kernels = (nat, Name, Env) -> Value

  function Restrict(env: Env, names: set<Name>): Env {
    map n | n in names && n in env :: env[n]
  }

  function Exec(g: Graph, k: Kernels, node: Node, env: Env): Env {
    env + map n | n in Stored(g, node) :: k(node.id, n, Restrict(env, Operands(g, node)))
  }

  function Run(g: Graph, k: Kernels, p: Partition, env: Env): Env {
    if p == [] then env else Exec(g, k, p[|p| - 1], Run(g, k, p[..|p| - 1], env))
  }

  /** One partition function call: it sees the inputs and constants its signature
      names, the caller drops what it deallocates and keeps what it returns. */
  function Call(g: Graph, k: Kernels, p: Partition, sig: Signature, env: Env, consts: Env): Env {
    var after := Run(g, k, p, Restrict(env, sig.inputs) + Restrict(consts, sig.constants));
    (env - sig.deallocated) + Restrict(after, sig.outputs)
  }

  ghost predicate AgreeOn(names: set<Name>, e: Env, e': Env) {
    forall n :: n in names ==> (n in e <==> n in e') && (n in e ==> e[n] == e'[n])
  }

  lemma ExecAgrees(g: Graph, k: Kernels, node: Node, names: set<Name>, e: Env, e': Env)
    requires AgreeOn(names, e, e') && AgreeOn(Operands(g, node), e, e')
    ensures AgreeOn(names + Stored(g, node), Exec(g, k, node, e), Exec(g, k, node, e'))
  {
    assert Restrict(e, Operands(g, node)) == Restrict(e', Operands(g, node));
  }

  lemma OperandsAgree(g: Graph, ps: seq<Partition>, j: nat, a: nat, e: Env, e': Env)
    requires WellScheduled(g, ps) && j < |ps| && a < |ps[j]|
    requires AgreeOn(DirectInputs(g, ps[j]) + StoredBy(g, ps[j][..a]), e, e')
    ensures AgreeOn(Operands(g, ps[j][a]), e, e')
  {
    forall r | r in Operands(g, ps[j][a]) ensures (r in e <==> r in e') && (r in e ==> e[r] == e'[r]) {
      OperandAvailable(g, ps, j, a, r);
    }
  }

  /** One more node. */
  lemma RunSnoc(g: Graph, k: Kernels, p: Partition, a: nat, env: Env)
    requires a < |p|
    ensures Run(g, k, p[..a + 1], env) == Exec(g, k, p[a], Run(g, k, p[..a], env))
    ensures StoredBy(g, p[..a + 1]) == StoredBy(g, p[..a]) + Stored(g, p[a])
  {
    assert p[..a + 1][..a] == p[..a];
  }

  /** A partition computes the same from two environments that agree on its
      direct inputs. */
  lemma {:induction false} RunAgrees(g: Graph, k: Kernels, ps: seq<Partition>, j: nat, a: nat, e: Env, e': Env)
    requires WellScheduled(g, ps) && j < |ps| && a <= |ps[j]|
    requires AgreeOn(DirectInputs(g, ps[j]), e, e')
    ensures AgreeOn(DirectInputs(g, ps[j]) + StoredBy(g, ps[j][..a]), Run(g, k, ps[j][..a], e), Run(g, k, ps[j][..a], e'))
    decreases a
  {
    if a > 0 {
      var p := ps[j];
      RunAgrees(g, k, ps, j, a - 1, e, e');
      var names := DirectInputs(g, p) + StoredBy(g, p[..a - 1]);
      var f, f' := Run(g, k, p[..a - 1], e), Run(g, k, p[..a - 1], e');
      OperandsAgree(g, ps, j, a - 1, f, f');
      ExecAgrees(g, k, p[a - 1], names, f, f');
      RunSnoc(g, k, p, a - 1, e);
      RunSnoc(g, k, p, a - 1, e');
      assert names + Stored(g, p[a - 1]) == DirectInputs(g, p) + StoredBy(g, p[..a]);
    }
  }

  lemma {:induction false} RunFrame(g: Graph, k: Kernels, p: Partition, env: Env, r: Name)
    ensures r in StoredBy(g, p) ==> r in Run(g, k, p, env)
    ensures r in env ==> r in Run(g, k, p, env)
    ensures r !in StoredBy(g, p) ==> (r in Run(g, k, p, env) <==> r in env)
    ensures r !in StoredBy(g, p) && r in env ==> Run(g, k, p, env)[r] == env[r]
  {
    if p != [] {
      RunFrame(g, k, p[..|p| - 1], env, r);
    }
  }

  /** Before partition `i`, the caller holds every unmet name at its value in the
      whole graph. */
  ghost predicate Supplied(g: Graph, ps: seq<Partition>, i: nat, env: Env, whole: Env)
    requires i <= |ps|
  {
    forall n :: n in Unmet(g, ps, i) && !IsNone(g, n) && n !in g.constants ==>
      n in env && n in whole && env[n] == whole[n]
  }

  /** The environment a partition is called in agrees with the whole graph on
      everything the partition reads. */
  lemma CallSeesInputs(g: Graph, k: Kernels, ps: seq<Partition>, skips: seq<bool>, i: nat, env: Env, whole: Env, consts: Env)
    requires WellScheduled(g, ps) && i < |ps| == |skips| && Supplied(g, ps, i, env, whole)
    requires consts.Keys == g.constants && AgreeOn(g.constants, consts, whole)
    ensures var sig := SignatureAt(g, ps, skips, i);
            AgreeOn(DirectInputs(g, ps[i]), Restrict(env, sig.inputs) + Restrict(consts, sig.constants), whole)
  {
    var sig := SignatureAt(g, ps, skips, i);
    forall r | r in DirectInputs(g, ps[i])
      ensures var e := Restrict(env, sig.inputs) + Restrict(consts, sig.constants);
              r in e && r in whole && e[r] == whole[r]
    {
      var x :| !IsNone(g, x) && Real(g, x) == r;
      NoneOfReal(g, x);
      UnmetIsKnown(g, ps, i, r);
    }
  }

  /** What is returned with storage was passed in or stored. */
  lemma ReturnedIsComputed(g: Graph, ps: seq<Partition>, i: nat, n: Name)
    requires WellScheduled(g, ps) && i < |ps| && n in ReturnedBy(g, ps, i) && !IsNone(g, n)
    ensures n in DirectInputs(g, ps[i]) || n in StoredBy(g, ps[i])
  {
    var p := ps[i];
    var m :| Real(g, m) == n &&
      (m in OutputNames(p) * Unmet(g, ps, i + 1) || (m in InputNames(g, p) && m in Known(g) && m !in Freed(p)));
    if m in InputNames(g, p) {
      InputsAreAccessed(g, ps, i, m);
      DataInputsAreDirect(g, ps, i, n);
    } else {
      UnmetIsLive(g, ps, i + 1, m);
      OutputsAre(p, m);
      var a :| 0 <= a < |p| && m in p[a].outputs;
      assert n in Stored(g, p[a]);
      StoredByIs(g, p, n);
    }
  }

  /** A returned name comes back at its value in the whole graph. */
  lemma ReturnedValue(g: Graph, k: Kernels, ps: seq<Partition>, skips: seq<bool>, i: nat, env: Env, whole: Env,
                      consts: Env, n: Name)
    requires WellScheduled(g, ps) && i < |ps| == |skips| && Supplied(g, ps, i, env, whole)
    requires consts.Keys == g.constants && AgreeOn(g.constants, consts, whole)
    requires n in ReturnedBy(g, ps, i) && !IsNone(g, n)
    ensures var sig := SignatureAt(g, ps, skips, i);
            var after := Run(g, k, ps[i], Restrict(env, sig.inputs) + Restrict(consts, sig.constants));
            n in sig.outputs && n in after && n in Run(g, k, ps[i], whole) && after[n] == Run(g, k, ps[i], whole)[n]
  {
    var p, sig := ps[i], SignatureAt(g, ps, skips, i);
    var locals := Restrict(env, sig.inputs) + Restrict(consts, sig.constants);
    CallSeesInputs(g, k, ps, skips, i, env, whole, consts);
    assert p[..|p|] == p;
    RunAgrees(g, k, ps, i, |p|, locals, whole);
    ReturnedIsComputed(g, ps, i, n);
    RunFrame(g, k, p, locals, n);
  }

  /** A name that is wanted later but not returned is left alone by both runs. */
  lemma UntouchedValue(g: Graph, k: Kernels, ps: seq<Partition>, skips: seq<bool>, i: nat, whole: Env, n: Name)
    requires WellScheduled(g, ps) && i < |ps| == |skips|
    requires n in Unmet(g, ps, i + 1) && n !in ReturnedBy(g, ps, i) && n in whole
    ensures n in Unmet(g, ps, i)
    ensures n !in SignatureAt(g, ps, skips, i).deallocated && n !in SignatureAt(g, ps, skips, i).outputs
    ensures n in Run(g, k, ps[i], whole) && Run(g, k, ps[i], whole)[n] == whole[n]
  {
    UnmetIsLive(g, ps, i + 1, n);
    RunFrame(g, k, ps[i], whole, n);
    if n in StoredBy(g, ps[i]) {
      StoredIsReturned(g, ps, i, n);
    }
  }

  lemma CallKeepsSupplied(g: Graph, k: Kernels, ps: seq<Partition>, skips: seq<bool>, i: nat, env: Env, whole: Env,
                          consts: Env)
    requires WellScheduled(g, ps) && i < |ps| == |skips| && Supplied(g, ps, i, env, whole)
    requires consts.Keys == g.constants && AgreeOn(g.constants, consts, whole)
    ensures Supplied(g, ps, i + 1, Call(g, k, ps[i], SignatureAt(g, ps, skips, i), env, consts), Run(g, k, ps[i], whole))
  {
    var sig := SignatureAt(g, ps, skips, i);
    var env', whole' := Call(g, k, ps[i], sig, env, consts), Run(g, k, ps[i], whole);
    forall n | n in Unmet(g, ps, i + 1) && !IsNone(g, n) && n !in g.constants
      ensures n in env' && n in whole' && env'[n] == whole'[n]
    {
      if n in ReturnedBy(g, ps, i) {
        ReturnedValue(g, k, ps, skips, i, env, whole, consts, n);
      } else {
        assert n in Unmet(g, ps, i);
        UntouchedValue(g, k, ps, skips, i, whole, n);
      }
    }
  }

  lemma InitiallySupplied(g: Graph, ps: seq<Partition>, inputs: Env, consts: Env)
    requires WellScheduled(g, ps) && inputs.Keys == g.inputs && consts.Keys == g.constants
    ensures Supplied(g, ps, 0, inputs, inputs + consts)
  {
    forall n | n in Unmet(g, ps, 0) && !IsNone(g, n) && n !in g.constants ensures n in g.inputs {
      UnmetIsAvailable(g, ps, 0, n);
    }
  }

  /** A graph with a good partition list. */
  datatype Plan = Plan(g: Graph, ps: seq<Partition>)

  type GoodPlan = p: Plan | WellScheduled(p.g, p.ps) ghost witness Plan(GraphData({}, {}, {}, map[], map[], map[]), [])

  /** The environments of the partitioned run and of the whole run, side by side. */
  datatype Runs = Runs(envs: seq<Env>, wholes: seq<Env>)

  ghost predicate IsPartitionedRun(p: Plan, k: Kernels, skips: seq<bool>, inputs: Env, consts: Env, envs: seq<Env>) {
    && |envs| == |p.ps| + 1 == |skips| + 1 && envs[0] == inputs
    && forall i {:trigger CallAt(p, k, skips, consts, envs, i)} :: 0 <= i < |p.ps| ==> CallAt(p, k, skips, consts, envs, i)
  }

  ghost predicate CallAt(p: Plan, k: Kernels, skips: seq<bool>, consts: Env, envs: seq<Env>, i: nat)
    requires |envs| == |p.ps| + 1 == |skips| + 1 && i < |p.ps|
  {
    envs[i + 1] == Call(p.g, k, p.ps[i], SignatureAt(p.g, p.ps, skips, i), envs[i], consts)
  }

  ghost predicate IsWholeRun(p: Plan, k: Kernels, env: Env, wholes: seq<Env>) {
    && |wholes| == |p.ps| + 1 && wholes[0] == env
    && forall i {:trigger RunAt(p, k, wholes, i)} :: 0 <= i < |p.ps| ==> RunAt(p, k, wholes, i)
  }

  ghost predicate RunAt(p: Plan, k: Kernels, wholes: seq<Env>, i: nat)
    requires |wholes| == |p.ps| + 1 && i < |p.ps|
  {
    wholes[i + 1] == Run(p.g, k, p.ps[i], wholes[i])
  }

  lemma {:induction false} ConstantKept(p: GoodPlan, k: Kernels, env: Env, wholes: seq<Env>, i: nat, c: Name)
    requires IsWholeRun(p, k, env, wholes) && i <= |p.ps| && c in p.g.constants && c in env
    ensures c in wholes[i] && wholes[i][c] == env[c]
    decreases i
  {
    if i > 0 {
      ConstantKept(p, k, env, wholes, i - 1, c);
      ConstantNotStored(p, i - 1, c);
      assert RunAt(p, k, wholes, i - 1);
      RunFrame(p.g, k, p.ps[i - 1], wholes[i - 1], c);
    }
  }

  lemma ConstantNotStored(p: GoodPlan, i: nat, c: Name)
    requires i < |p.ps| && c in p.g.constants
    ensures c !in StoredBy(p.g, p.ps[i])
  {
    if c in StoredBy(p.g, p.ps[i]) {
      StorageIsKnown(p.g, p.ps, i, c);
    }
  }

  ghost predicate AreRuns(p: Plan, k: Kernels, skips: seq<bool>, inputs: Env, consts: Env, r: Runs) {
    IsPartitionedRun(p, k, skips, inputs, consts, r.envs) && IsWholeRun(p, k, inputs + consts, r.wholes)
  }

  ghost predicate SuppliedAt(p: Plan, r: Runs, i: nat)
    requires |r.envs| == |r.wholes| == |p.ps| + 1 && i <= |p.ps|
  {
    Supplied(p.g, p.ps, i, r.envs[i], r.wholes[i])
  }

  lemma StaysSupplied(p: GoodPlan, k: Kernels, skips: seq<bool>, inputs: Env, consts: Env, r: Runs, i: nat)
    requires AreRuns(p, k, skips, inputs, consts, r) && consts.Keys == p.g.constants
    requires i < |p.ps| && SuppliedAt(p, r, i)
    ensures SuppliedAt(p, r, i + 1)
  {
    WholeHasConstants(p, k, skips, inputs, consts, r, i);
    assert CallAt(p, k, skips, consts, r.envs, i) && RunAt(p, k, r.wholes, i);
    CallKeepsSupplied(p.g, k, p.ps, skips, i, r.envs[i], r.wholes[i], consts);
  }

  /** The caller is supplied all along. */
  lemma {:induction false} AlwaysSupplied(p: GoodPlan, k: Kernels, skips: seq<bool>, inputs: Env, consts: Env, r: Runs, i: nat)
    requires AreRuns(p, k, skips, inputs, consts, r)
    requires inputs.Keys == p.g.inputs && consts.Keys == p.g.constants && i <= |p.ps|
    ensures SuppliedAt(p, r, i)
    decreases i
  {
    if i == 0 {
      InitiallySupplied(p.g, p.ps, inputs, consts);
    } else {
      AlwaysSupplied(p, k, skips, inputs, consts, r, i - 1);
      StaysSupplied(p, k, skips, inputs, consts, r, i - 1);
    }
  }

  lemma WholeHasConstants(p: GoodPlan, k: Kernels, skips: seq<bool>, inputs: Env, consts: Env, r: Runs, i: nat)
    requires AreRuns(p, k, skips, inputs, consts, r) && consts.Keys == p.g.constants && i <= |p.ps|
    ensures AgreeOn(p.g.constants, consts, r.wholes[i])
  {
    forall c | c in p.g.constants ensures c in r.wholes[i] && r.wholes[i][c] == consts[c] {
      ConstantKept(p, k, inputs + consts, r.wholes, i, c);
    }
  }

  /** The partitioned run computes what the whole graph computes: every graph
      output with storage has the same value, whatever the nodes compute, with
      mutations of buffers across partitions included. */
  lemma PartitionedComputesWhole(g: Graph, k: Kernels, ps: seq<Partition>, skips: seq<bool>,
                                 inputs: Env, consts: Env, r: Runs, n: Name)
    requires WellScheduled(g, ps) && AreRuns(Plan(g, ps), k, skips, inputs, consts, r)
    requires inputs.Keys == g.inputs && consts.Keys == g.constants
    requires n in g.outputs && !IsNone(g, n) && n !in g.constants
    ensures n in r.envs[|ps|] && n in r.wholes[|ps|] && r.envs[|ps|][n] == r.wholes[|ps|][n]
  {
    AlwaysSupplied(Plan(g, ps), k, skips, inputs, consts, r, |ps|);
  }

  /** From any inputs both runs exist. */
  lemma RunsExist(p: Plan, k: Kernels, skips: seq<bool>, inputs: Env, consts: Env) returns (r: Runs)
    requires |p.ps| == |skips|
    ensures AreRuns(p, k, skips, inputs, consts, r)
  {
    var envs := Iterated((i: nat, e: Env) =>
      if i < |p.ps| then Call(p.g, k, p.ps[i], SignatureAt(p.g, p.ps, skips, i), e, consts) else e, inputs, |p.ps|);
    var wholes := Iterated((i: nat, e: Env) => if i < |p.ps| then Run(p.g, k, p.ps[i], e) else e, inputs + consts, |p.ps|);
    r := Runs(envs, wholes);
  }

  lemma {:induction false} Iterated(f: (nat, Env) -> Env, env: Env, n: nat) returns (envs: seq<Env>)
    ensures |envs| == n + 1 && envs[0] == env
    ensures forall i {:trigger envs[i]} :: 0 <= i < n ==> envs[i + 1] == f(i, envs[i])
  {
    if n == 0 {
      envs := [env];
    } else {
      envs := Iterated(f, env, n - 1);
      envs := envs + [f(n - 1, envs[n - 1])];
    }
  }

  // ---------------------------------------------------------- what is freed

  lemma FreedNotReturned(g: Graph, ps: seq<Partition>, i: nat, j: nat, n: Name)
    requires WellScheduled(g, ps) && i <= j < |ps| && n in Freed(ps[i])
    ensures n !in ReturnedBy(g, ps, j)
  {
    if n in ReturnedBy(g, ps, j) {
      var m :| Real(g, m) == n &&
        (m in OutputNames(ps[j]) * Unmet(g, ps, j + 1) || (m in InputNames(g, ps[j]) && m in Known(g) && m !in Freed(ps[j])));
      if m in Unmet(g, ps, j + 1) && m in OutputNames(ps[j]) {
        UnmetIsLive(g, ps, j + 1, m);
      } else {
        InputsAreAccessed(g, ps, j, m);
      }
      assert false;
    }
  }

  /** Storage that no input and no constant is was made by some partition. */
  lemma {:induction false} StoredWasMade(g: Graph, ps: seq<Partition>, l: nat, n: Name)
    requires WellScheduled(g, ps) && l < |ps| && n in StoredBy(g, ps[l]) && n !in g.inputs + g.constants
    ensures n in OutputsBefore(ps, l + 1)
    decreases l
  {
    assert ps[l][..|ps[l]|] == ps[l];
    StoredIsOwnOrInput(g, ps, l, |ps[l]|, n);
    if n !in OutputNames(ps[l]) {
      DirectInputDefined(g, ps, l, n);
      var l' := StoredBeforeIs(g, ps, l, n);
      StoredWasMade(g, ps, l', n);
      OutputsGrow(ps, l' + 1, l + 1, n);
    }
  }

  lemma {:induction false} OutputsGrow(ps: seq<Partition>, i: nat, j: nat, n: Name)
    requires i <= j <= |ps| && n in OutputsBefore(ps, i)
    ensures n in OutputsBefore(ps, j)
    decreases j
  {
    if i < j {
      OutputsGrow(ps, i, j - 1, n);
    }
  }

  lemma ReturnedWasMade(g: Graph, ps: seq<Partition>, l: nat, n: Name)
    requires WellScheduled(g, ps) && l < |ps| && n in ReturnedBy(g, ps, l) && !IsNone(g, n) && n !in g.inputs + g.constants
    ensures n in OutputsBefore(ps, l + 1)
  {
    ReturnedIsComputed(g, ps, l, n);
    if n in StoredBy(g, ps[l]) {
      StoredWasMade(g, ps, l, n);
    } else {
      DirectInputDefined(g, ps, l, n);
      var l' := StoredBeforeIs(g, ps, l, n);
      StoredWasMade(g, ps, l', n);
      OutputsGrow(ps, l' + 1, l + 1, n);
    }
  }

  lemma MadeOnce(g: Graph, ps: seq<Partition>, i: nat, n: Name)
    requires WellScheduled(g, ps) && i < |ps| && n in OutputNames(ps[i])
    ensures n !in OutputsBefore(ps, i) && n !in g.inputs + g.constants
  {
    OutputsAre(ps[i], n);
    var a :| 0 <= a < |ps[i]| && n in ps[i][a].outputs;
    assert NodeAtOk(g, ps, i, a);
  }

  /** Nobody returns a buffer before the partition that makes it. */
  lemma NotReturnedBeforeMade(g: Graph, ps: seq<Partition>, i: nat, l: nat, n: Name)
    requires WellScheduled(g, ps) && l < i < |ps| && n in OutputNames(ps[i]) && !IsNone(g, n)
    ensures n !in ReturnedBy(g, ps, l)
  {
    MadeOnce(g, ps, i, n);
    if n in ReturnedBy(g, ps, l) {
      ReturnedWasMade(g, ps, l, n);
      OutputsGrow(ps, l + 1, i, n);
      assert false;
    }
  }

  /** What the caller does not hold, it holds after a call only if it was returned. */
  lemma StaysAway(p: Plan, k: Kernels, skips: seq<bool>, inputs: Env, consts: Env, envs: seq<Env>, l: nat, n: Name)
    requires IsPartitionedRun(p, k, skips, inputs, consts, envs) && l < |p.ps| && n !in envs[l]
    requires IsNone(p.g, n) || n !in ReturnedBy(p.g, p.ps, l)
    ensures n !in envs[l + 1]
  {
    assert CallAt(p, k, skips, consts, envs, l);
  }

  /** The caller does not hold a buffer before the partition that makes it. */
  lemma {:induction false} NotHeldBeforeMade(p: GoodPlan, k: Kernels, skips: seq<bool>, inputs: Env, consts: Env, envs: seq<Env>,
                                             i: nat, l: nat, n: Name)
    requires IsPartitionedRun(p, k, skips, inputs, consts, envs) && inputs.Keys == p.g.inputs
    requires l <= i < |p.ps| && n in OutputNames(p.ps[i])
    ensures n !in envs[l]
    decreases l
  {
    if l == 0 {
      MadeOnce(p.g, p.ps, i, n);
    } else {
      NotHeldBeforeMade(p, k, skips, inputs, consts, envs, i, l - 1, n);
      if !IsNone(p.g, n) {
        NotReturnedBeforeMade(p.g, p.ps, i, l - 1, n);
      }
      StaysAway(p, k, skips, inputs, consts, envs, l - 1, n);
    }
  }

  lemma FreedLeavesAtCall(p: GoodPlan, k: Kernels, skips: seq<bool>, inputs: Env, consts: Env, envs: seq<Env>, i: nat, n: Name)
    requires IsPartitionedRun(p, k, skips, inputs, consts, envs) && inputs.Keys == p.g.inputs
    requires i < |p.ps| && n in Freed(p.ps[i]) && n in Known(p.g)
    ensures n !in envs[i + 1]
  {
    FreedNotReturned(p.g, p.ps, i, i, n);
    if n in OutputNames(p.ps[i]) {
      NotHeldBeforeMade(p, k, skips, inputs, consts, envs, i, i, n);
    }
    assert CallAt(p, k, skips, consts, envs, i);
  }

  lemma {:induction false} FreedStaysAway(p: GoodPlan, k: Kernels, skips: seq<bool>, inputs: Env, consts: Env, envs: seq<Env>,
                                          i: nat, n: Name, l: nat, j: nat)
    requires IsPartitionedRun(p, k, skips, inputs, consts, envs)
    requires i < l <= j <= |p.ps| && n in Freed(p.ps[i]) && n !in envs[l]
    ensures n !in envs[j]
    decreases j - l
  {
    if l < j {
      FreedNotReturned(p.g, p.ps, i, l, n);
      StaysAway(p, k, skips, inputs, consts, envs, l, n);
      FreedStaysAway(p, k, skips, inputs, consts, envs, i, n, l + 1, j);
    }
  }

  /** Over every partitioned run, what a node is the last to use is gone from the
      caller once the node's partition has been called, and never comes back. */
  lemma FreedIsGone(p: GoodPlan, k: Kernels, skips: seq<bool>, inputs: Env, consts: Env, envs: seq<Env>,
                    i: nat, a: nat, n: Name, j: nat)
    requires IsPartitionedRun(p, k, skips, inputs, consts, envs) && inputs.Keys == p.g.inputs
    requires i < |p.ps| && a < |p.ps[i]| && n in p.ps[i][a].lastUsage && n in Known(p.g) && i < j <= |p.ps|
    ensures n !in envs[j]
  {
    FreedAre(p.ps[i], n);
    FreedLeavesAtCall(p, k, skips, inputs, consts, envs, i, n);
    FreedStaysAway(p, k, skips, inputs, consts, envs, i, n, i + 1, j);
  }

  // ------------------------------------------------ signatures, node by node

  ghost predicate Makes(p: Partition, n: Name) {
    exists a :: 0 <= a < |p| && n in p[a].outputs
  }

  ghost predicate LastUses(p: Partition, n: Name) {
    exists a :: 0 <= a < |p| && n in p[a].lastUsage
  }

  ghost predicate Reads(p: Partition, n: Name) {
    exists a :: 0 <= a < |p| && n in p[a].accesses
  }

  /** `n` is read with storage under some name that the partition did not make, or
      is used for the last time by a partition that did not make it. */
  ghost predicate Takes(g: Graph, p: Partition, n: Name) {
    || (exists x :: Reads(p, x) && !IsNone(g, x) && !Makes(p, x) && Real(g, x) == n)
    || (LastUses(p, n) && !Makes(p, n) && n in Known(g))
  }

  /** `n` is made and wanted later, or taken and still in use after. */
  ghost predicate GivesBack(g: Graph, p: Partition, unmet: set<Name>, n: Name) {
    exists m :: Real(g, m) == n && ((Makes(p, m) && m in unmet) || (Takes(g, p, m) && m in Known(g) && !LastUses(p, m)))
  }

  lemma TakesInputs(g: Graph, p: Partition, n: Name)
    ensures n in InputNames(g, p) <==> Takes(g, p, n)
  {
    OutputsAre(p, n);
    FreedAre(p, n);
    forall x ensures x in OutputNames(p) <==> Makes(p, x) {
      OutputsAre(p, x);
    }
    forall x ensures x in Accesses(p) <==> Reads(p, x) {
      AccessesAre(p, x);
    }
    if Takes(g, p, n) && !(LastUses(p, n) && !Makes(p, n) && n in Known(g)) {
      var x :| Reads(p, x) && !IsNone(g, x) && !Makes(p, x) && Real(g, x) == n;
      assert x in (set m | m in Accesses(p) && !IsNone(g, m)) - OutputNames(p);
    }
  }

  lemma GivesBackReturned(g: Graph, p: Partition, unmet: set<Name>, n: Name)
    ensures n in Returned(g, p, unmet) <==> GivesBack(g, p, unmet, n)
  {
    forall m ensures m in OutputNames(p) <==> Makes(p, m) {
      OutputsAre(p, m);
    }
    forall m ensures m in Freed(p) <==> LastUses(p, m) {
      FreedAre(p, m);
    }
    forall m ensures m in InputNames(g, p) <==> Takes(g, p, m) {
      TakesInputs(g, p, m);
    }
  }

  /** Every field of a signature, and the names unmet before, in terms of what the
      single nodes do: an input is deallocated exactly when a node of the partition
      is the last to use it. */
  lemma SignatureByNodes(g: Graph, ps: seq<Partition>, skips: seq<bool>, i: nat, n: Name)
    requires i < |ps| == |skips|
    ensures var sig, p, later := SignatureAt(g, ps, skips, i), ps[i], Unmet(g, ps, i + 1);
            && (n in sig.inputs <==> Takes(g, p, n) && n in Known(g))
            && (n in sig.deallocated <==> n in sig.inputs && LastUses(p, n))
            && (n in sig.constants <==> Takes(g, p, n) && n in g.constants)
            && (n in sig.outputs <==> GivesBack(g, p, later, n) && !IsNone(g, n))
            && sig.skipCudagraph == skips[i]
            && (n in Unmet(g, ps, i) <==> Takes(g, p, n) || (n in later && !GivesBack(g, p, later, n)))
  {
    TakesInputs(g, ps[i], n);
    FreedAre(ps[i], n);
    GivesBackReturned(g, ps[i], Unmet(g, ps, i + 1), n);
  }

  // --------------------------------------------------------- buffers without storage

  /** Each name stands for a mutation of the next one. */
  ghost predicate IsChain(g: Graph, chain: seq<Name>) {
    && chain != []
    && forall i {:trigger chain[i]} :: 0 <= i < |chain| - 1 ==>
         && chain[i] in g.buffers && g.buffers[chain[i]].noneLayout && g.buffers[chain[i]].mutationOutput
         && chain[i] in g.realName && g.realName[chain[i]] != "" && g.realName[chain[i]] == chain[i + 1]
  }

  /** A mutation has storage if what it finally mutates has: along a chain of
      mutations the last name decides. */
  lemma {:induction false} LastOfChainDecides(g: Graph, chain: seq<Name>)
    requires IsChain(g, chain)
    ensures IsNone(g, chain[0]) == IsNone(g, chain[|chain| - 1])
  {
    if |chain| > 1 {
      var rest := chain[1..];
      forall i {:trigger rest[i]} | 0 <= i < |rest| - 1
        ensures && rest[i] in g.buffers && g.buffers[rest[i]].noneLayout && g.buffers[rest[i]].mutationOutput
                && rest[i] in g.realName && g.realName[rest[i]] != "" && g.realName[rest[i]] == rest[i + 1]
      {
        assert chain[i + 1] == rest[i];
      }
      LastOfChainDecides(g, rest);
      assert chain[0] in g.buffers && g.realName[chain[0]] == chain[1];
    }
  }
}
