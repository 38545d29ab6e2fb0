/** The backward pass of get_graph_partition_signature_patched in
    vllm/env_override.py: what each partition of a scheduled graph takes,
    returns and frees. */
module GraphPartition {

  type Name = string

  datatype Buffer = Buffer(noneLayout: bool, mutationOutput: bool)

  /** A scheduler node: the buffers it defines, its dependencies, and the buffers
      it is the last to use. A mutation of a buffer is an output under a new
      name, which `realName` maps back to the buffer. */
  datatype Node = Node(id: nat, outputs: set<Name>, accesses: set<Name>, lastUsage: set<Name>)

  type Partition = seq<Node>

  /** `position` is the order in which names were registered. */
  datatype GraphData = GraphData(outputs: set<Name>, inputs: set<Name>, constants: set<Name>,
                                 buffers: map<Name, Buffer>, realName: map<Name, Name>, position: map<Name, nat>)

  /** A buffer is registered before the names that stand for its mutations. */
  predicate RenamesOlder(g: GraphData) {
    forall n :: n in g.realName ==>
      n in g.position && g.realName[n] in g.position && g.position[g.realName[n]] < g.position[n]
  }

  type Graph = g: GraphData | RenamesOlder(g) witness GraphData({}, {}, {}, map[], map[], map[])

  // ------------------------------------------------------------ the pass

  /** get_name_to_nodes: graph inputs and buffers. */
  function Known(g: Graph): set<Name> {
    g.inputs + g.buffers.Keys
  }

  function Real(g: Graph, n: Name): Name {
    if n in g.realName then g.realName[n] else n
  }

  function Reals(g: Graph, names: set<Name>): set<Name> {
    set n | n in names :: Real(g, n)
  }

  /** is_none_layout: a buffer without storage of its own. A mutation stands for
      the buffer it mutates. */
  predicate IsNone(g: Graph, n: Name)
    decreases if n in g.position then g.position[n] else 0
  {
    && n in g.buffers && g.buffers[n].noneLayout
    && (g.buffers[n].mutationOutput && n in g.realName && g.realName[n] != "" ==> IsNone(g, g.realName[n]))
  }

  function OutputNames(p: Partition): set<Name> {
    if p == [] then {} else OutputNames(p[..|p| - 1]) + p[|p| - 1].outputs
  }

  function Accesses(p: Partition): set<Name> {
    if p == [] then {} else Accesses(p[..|p| - 1]) + p[|p| - 1].accesses
  }

  function Freed(p: Partition): set<Name> {
    if p == [] then {} else Freed(p[..|p| - 1]) + p[|p| - 1].lastUsage
  }

  function DirectInputs(g: Graph, p: Partition): set<Name> {
    Reals(g, (set n | n in Accesses(p) && !IsNone(g, n)) - OutputNames(p))
  }

  function InputNames(g: Graph, p: Partition): set<Name> {
    DirectInputs(g, p) + set n | n in Freed(p) - OutputNames(p) && n in Known(g)
  }

  function Returned(g: Graph, p: Partition, unmet: set<Name>): set<Name> {
    Reals(g, OutputNames(p) * unmet + set n | n in InputNames(g, p) && n in Known(g) && n !in Freed(p))
  }

  function UnmetBefore(g: Graph, p: Partition, unmet: set<Name>): set<Name> {
    InputNames(g, p) + (unmet - Returned(g, p, unmet))
  }

  datatype Signature = Signature(inputs: set<Name>, outputs: set<Name>, deallocated: set<Name>,
                                 skipCudagraph: bool, constants: set<Name>)

  function SignatureOf(g: Graph, p: Partition, unmet: set<Name>, skip: bool): Signature {
    Signature(InputNames(g, p) * Known(g),
              (set n | n in Returned(g, p, unmet) && !IsNone(g, n)),
              InputNames(g, p) * Known(g) * Freed(p),
              skip,
              InputNames(g, p) * g.constants)
  }

  /** The unmet names before partition `i`. */
  function Unmet(g: Graph, ps: seq<Partition>, i: nat): set<Name>
    requires i <= |ps|
    decreases |ps| - i
  {
    if i == |ps| then g.outputs else UnmetBefore(g, ps[i], Unmet(g, ps, i + 1))
  }

  datatype PassResult = MissingNode(name: Name) | Signatures(signatures: seq<Signature>)

  function Lesser(a: nat, b: nat): nat {
    if a < b then a else b
  }

  function SignatureAt(g: Graph, ps: seq<Partition>, skips: seq<bool>, i: nat): Signature
    requires i < |ps| == |skips|
  {
    SignatureOf(g, ps[i], Unmet(g, ps, i + 1), skips[i])
  }

  /** Like zip over the two reversed lists, pairs the lists from their ends and
      stops with the shorter one. */
  method GetSignatures(g: Graph, partitions: seq<Partition>, skips: seq<bool>) returns (r: PassResult)
    ensures var m := Lesser(|partitions|, |skips|);
            PassDone(g, partitions[|partitions| - m..], skips[|skips| - m..], r)
  {
    var m := Lesser(|partitions|, |skips|);
    r := BackwardPass(g, partitions[|partitions| - m..], skips[|skips| - m..]);
  }

  /** The backward loop. */
  method BackwardPass(g: Graph, ps: seq<Partition>, skips: seq<bool>) returns (r: PassResult)
    requires |ps| == |skips|
    ensures PassDone(g, ps, skips, r)
  {
    var unmet := g.outputs;
    var signatures := [];
    for i := |ps| downto 0
      invariant unmet == Unmet(g, ps, i)
      invariant |signatures| == |ps| - i
      invariant forall k :: 0 <= k < |signatures| ==> SignatureOk(g, ps, skips, |ps| - 1 - k, signatures[k])
    {
      var signature, unmet' := PartitionStep(g, ps[i], unmet, skips[i]);
      var missing := signature.outputs - Known(g);
      if missing != {} {
        var name :| name in missing;
        assert name in SignatureAt(g, ps, skips, i).outputs && name !in Known(g);
        return MissingNode(name);
      }
      forall n | n in signature.outputs ensures n in Known(g) {
        assert n !in missing;
      }
      assert SignatureOk(g, ps, skips, i, signature);
      signatures := signatures + [signature];
      unmet := unmet';
    }
    return Signatures(seq(|ps|, k requires 0 <= k < |ps| == |signatures| => signatures[|ps| - 1 - k]));
  }

  ghost predicate SignatureOk(g: Graph, ps: seq<Partition>, skips: seq<bool>, i: nat, signature: Signature)
    requires i < |ps| == |skips|
  {
    signature == SignatureAt(g, ps, skips, i) && signature.outputs <= Known(g)
  }

  ghost predicate PassDone(g: Graph, ps: seq<Partition>, skips: seq<bool>, r: PassResult)
    requires |ps| == |skips|
  {
    match r
    case Signatures(signatures) =>
      && |signatures| == |ps|
      && forall i :: 0 <= i < |ps| ==> SignatureOk(g, ps, skips, i, signatures[i])
    case MissingNode(name) =>
      exists i :: 0 <= i < |ps| && name in SignatureAt(g, ps, skips, i).outputs && name !in Known(g)
  }

  /** The body of the backward loop. */
  method PartitionStep(g: Graph, partition: Partition, unmet: set<Name>, skip: bool)
    returns (signature: Signature, unmet': set<Name>)
    ensures signature == SignatureOf(g, partition, unmet, skip)
    ensures unmet' == UnmetBefore(g, partition, unmet)
  {
    var outputNames, accessed, freed := CollectNames(partition);
    var returned := outputNames * unmet;
    var inputNames := (set n | n in accessed && !IsNone(g, n)) - outputNames;
    inputNames := set n | n in inputNames :: Real(g, n);
    inputNames := inputNames + set n | n in freed - outputNames && n in Known(g);
    assert inputNames == InputNames(g, partition);
    var inputNodes := inputNames * Known(g);
    var deallocated := inputNodes * freed;
    returned := returned + set n | n in inputNames && n in Known(g) && n !in freed;
    returned := set n | n in returned :: Real(g, n);
    assert returned == Returned(g, partition, unmet);
    var outputNodes := set n | n in returned && !IsNone(g, n);
    var constants := inputNames * g.constants;
    signature := Signature(inputNodes, outputNodes, deallocated, skip, constants);
    unmet' := inputNames + (unmet - returned);
  }

  /** The loops over the nodes of one partition. */
  method CollectNames(p: Partition) returns (outputs: set<Name>, accessed: set<Name>, freed: set<Name>)
    ensures outputs == OutputNames(p) && accessed == Accesses(p) && freed == Freed(p)
  {
    outputs, accessed, freed := {}, {}, {};
    for k := 0 to |p|
      invariant outputs == OutputNames(p[..k]) && accessed == Accesses(p[..k]) && freed == Freed(p[..k])
    {
      outputs := outputs + p[k].outputs;
      accessed := accessed + p[k].accesses;
      freed := freed + p[k].lastUsage;
      assert p[..k + 1][..k] == p[..k];
    }
    assert p[..|p|] == p;
  }
}
