/** A prompt is prefilled over any number of scheduling steps, as the scheduler
    sees fit. Each step resumes from the state that the step before left in the
    cache, and together they compute one scan of the prompt. */
module PromptSteps {

  import opened ScanRecurrence
  import opened ScanKernel
  import opened PrefixCache
  import opened ChunkMetadata
  import ScanGrid

  /** The program that scans the tokens of a prompt from `from` up to `to`: a state
      is loaded when tokens were computed before. */
  function StepProgram(p: Program, row: seq<int>, size: nat, from: nat, to: nat): Program
    requires size > 0 && from <= to
  {
    p.(cache := CacheFor(row, from, to - from, size), hasInit := from > 0)
  }

  /** The column is large enough for the slots that the program uses. */
  ghost predicate SlotsIn(q: Program, column: seq<Vec>) {
    && q.SlotsFound() && (q.hasInit ==> 0 <= q.LoadSlot() < |column|)
    && forall c :: 0 <= c < |q.Chunks()| ==> 0 <= StoreSlot(q, c) < |column|
  }

  /** The step takes one column of cached states to the other. */
  ghost predicate Stepped(q: Program, tokens: seq<Token>, before: seq<Vec>, after: seq<Vec>) {
    && SlotsIn(q, before) && |tokens| == Total(q.Chunks())
    && after == ColumnAfter(q, StartState(q, before), tokens, before, |q.Chunks()|)
  }

  /** The blocks of the first `length` tokens have slots in a column of this width. */
  predicate BlocksIn(row: seq<int>, size: nat, length: nat, width: nat)
    requires size > 0
  {
    LastIdx(length, size) < |row| && forall n :: 0 <= n <= LastIdx(length, size) ==> 0 <= row[n] < width
  }

  lemma BlocksOfPrefix(row: seq<int>, size: nat, length: nat, width: nat, end: nat)
    requires size > 0 && BlocksIn(row, size, length, width) && end <= length
    ensures BlocksIn(row, size, end, width)
  {
    CeilDivGrows(end, length, size);
  }

  /** With such a row the program finds all its slots. */
  lemma StepFindsItsSlots(p: Program, row: seq<int>, size: nat, from: nat, to: nat, column: seq<Vec>)
    requires size > 0 && from < to && BlocksIn(row, size, to, |column|)
    ensures SlotsIn(StepProgram(p, row, size, from, to), column)
    ensures Total(StepProgram(p, row, size, from, to).Chunks()) == to - from
  {
    var q := StepProgram(p, row, size, from, to);
    var cache := q.cache;
    CacheIsAligned(row, from, to - from, size);
    SplitTotal(from, to - from, size);
    forall c | 0 <= c < |cache.chunks| - 1 ensures 0 <= BlockDone(cache, c) <= cache.lastIdx {
      ScanGrid.StoreEntry(cache, c);
    }
  }

  function Zero(p: Program): Vec {
    Lanes([], p.size)
  }

  lemma StartOf(p: Program, row: seq<int>, size: nat, from: nat, to: nat, column: seq<Vec>)
    requires size > 0 && from < to && BlocksIn(row, size, from, |column|)
    requires SlotsIn(StepProgram(p, row, size, from, to), column)
    ensures StartState(StepProgram(p, row, size, from, to), column) ==
            if from == 0 then Zero(p) else column[row[LastIdx(from, size)]]
  {
  }

  lemma SomePiece(computed: nat, added: nat, size: nat)
    requires size > 0 && added > 0
    ensures Pieces(computed, added, size) > 0
  {
    BlockStart(computed, size, 0);
    PiecesIff(computed, added, size, 0);
  }

  /** A step leaves the state after all its tokens in the block that they end in. */
  lemma StepLeavesState(p: Program, row: seq<int>, size: nat, from: nat, to: nat, tokens: seq<Token>,
                        before: seq<Vec>, after: seq<Vec>)
    requires size > 0 && from < to && BlocksIn(row, size, to, |before|)
    requires Stepped(StepProgram(p, row, size, from, to), tokens, before, after)
    ensures |after| == |before|
    ensures after[row[LastIdx(to, size)]] ==
            StateAfter(p.k, StartState(StepProgram(p, row, size, from, to), before), tokens)
  {
    var q := StepProgram(p, row, size, from, to);
    var last := |q.Chunks()| - 1;
    SomePiece(from, to - from, size);
    assert StoreSlot(q, last) == row[LastIdx(to, size)];
    SnapshotIsPlainState(q, StartState(q, before), tokens, before, last, |q.Chunks()|);
    assert q.Chunks()[..last + 1] == q.Chunks();
    assert tokens[..|tokens|] == tokens;
  }

  // ------------------------------------------------------------ all the steps

  /** The steps of a prompt: how far each goes, the cached states before and after
      it, the state that it loads, and the one in the block that it ends in. */
  datatype Prefill = Prefill(p: Program, row: seq<int>, size: nat, tokens: seq<Token>, width: nat, ends: seq<nat>,
                             befores: seq<seq<Vec>>, afters: seq<seq<Vec>>, starts: seq<Vec>, finals: seq<Vec>)
  {
    predicate Fits() {
      && size > 0 && BlocksIn(row, size, |tokens|, width)
      && |befores| == |afters| == |starts| == |finals| == |ends| - 1 && ends[0] == 0
    }

    ghost predicate StepAt(j: nat)
      requires Fits() && j < |starts|
    {
      && ends[j] < ends[j + 1] <= |tokens| && |befores[j]| == width
      && StepBetween(p, row, size, ends[j], ends[j + 1], tokens, befores[j], afters[j], starts[j], finals[j])
    }

    /** Between two steps others may use the cache, but not for the block that the
        first one ended in. */
    ghost predicate KeptAt(j: nat)
      requires Fits() && 0 < j < |starts| && ends[j] <= |tokens|
    {
      |befores[j]| == width && befores[j][SlotOf(row, size, tokens, ends[j], width)] == finals[j - 1]
    }

    ghost predicate IsRun() {
      && Fits()
      && (forall j {:trigger StepAt(j)} :: 0 <= j < |starts| ==> StepAt(j))
      && (forall j {:trigger KeptAt(j)} :: 0 < j < |starts| ==> ends[j] <= |tokens| && KeptAt(j))
    }
  }

  function SlotOf(row: seq<int>, size: nat, tokens: seq<Token>, end: nat, width: nat): (slot: nat)
    requires size > 0 && BlocksIn(row, size, |tokens|, width) && end <= |tokens|
    ensures slot < width
  {
    CeilDivGrows(end, |tokens|, size);
    row[LastIdx(end, size)]
  }

  /** The step from `from` up to `to`, with the states that it loads and leaves. */
  ghost predicate StepBetween(p: Program, row: seq<int>, size: nat, from: nat, to: nat, tokens: seq<Token>,
                              before: seq<Vec>, after: seq<Vec>, start: Vec, final: Vec)
    requires size > 0 && from < to <= |tokens| && BlocksIn(row, size, |tokens|, |before|)
  {
    var q := StepProgram(p, row, size, from, to);
    && Stepped(q, tokens[from..to], before, after) && start == StartState(q, before)
    && |after| == |before| && final == after[SlotOf(row, size, tokens, to, |after|)]
  }

  /** Step `j` of a chain of scans: it starts where the one before ended. */
  ghost predicate Link(k: Arithmetic, zero: Vec, tokens: seq<Token>, ends: seq<nat>, starts: seq<Vec>, finals: seq<Vec>, j: nat)
    requires |starts| == |finals| == |ends| - 1 && j < |starts|
  {
    && starts[j] == (if j == 0 then zero else finals[j - 1])
    && ends[j] <= ends[j + 1] <= |tokens| && finals[j] == StateAfter(k, starts[j], tokens[ends[j]..ends[j + 1]])
  }

  /** The chain passes through the states of one scan. */
  lemma {:induction false} ChainIsOneScan(k: Arithmetic, zero: Vec, tokens: seq<Token>, ends: seq<nat>,
                                          starts: seq<Vec>, finals: seq<Vec>, j: nat)
    requires |starts| == |finals| == |ends| - 1 && j < |starts| && ends[0] == 0
    requires forall n {:trigger Link(k, zero, tokens, ends, starts, finals, n)} :: 0 <= n < |starts| ==>
               Link(k, zero, tokens, ends, starts, finals, n)
    ensures ends[j] <= ends[j + 1] <= |tokens|
    ensures starts[j] == StateAfter(k, zero, tokens[..ends[j]]) && finals[j] == StateAfter(k, zero, tokens[..ends[j + 1]])
  {
    assert Link(k, zero, tokens, ends, starts, finals, j);
    if j > 0 {
      ChainIsOneScan(k, zero, tokens, ends, starts, finals, j - 1);
    }
    var first, second := tokens[..ends[j]], tokens[ends[j]..ends[j + 1]];
    ScanSplits(k, zero, first, second);
    assert first + second == tokens[..ends[j + 1]];
  }

  /** What a step loads, and what it leaves in the block that it ends in. */
  lemma StepInAndOut(p: Program, row: seq<int>, size: nat, from: nat, to: nat, tokens: seq<Token>,
                     before: seq<Vec>, after: seq<Vec>, start: Vec, final: Vec)
    requires size > 0 && from < to <= |tokens| && BlocksIn(row, size, |tokens|, |before|)
    requires StepBetween(p, row, size, from, to, tokens, before, after, start, final)
    ensures start == if from == 0 then Zero(p) else before[SlotOf(row, size, tokens, from, |before|)]
    ensures final == StateAfter(p.k, start, tokens[from..to])
  {
    BlocksOfPrefix(row, size, |tokens|, |before|, from);
    BlocksOfPrefix(row, size, |tokens|, |before|, to);
    StartOf(p, row, size, from, to, before);
    StepLeavesState(p, row, size, from, to, tokens[from..to], before, after);
  }

  lemma StepIsLink(r: Prefill, j: nat)
    requires r.Fits() && j < |r.starts| && r.StepAt(j)
    requires j == 0 || (r.ends[j] > 0 && r.KeptAt(j))
    ensures Link(r.p.k, Zero(r.p), r.tokens, r.ends, r.starts, r.finals, j)
  {
    StepInAndOut(r.p, r.row, r.size, r.ends[j], r.ends[j + 1], r.tokens, r.befores[j], r.afters[j], r.starts[j], r.finals[j]);
  }

  lemma RunLink(r: Prefill, j: nat)
    requires r.IsRun() && j < |r.starts|
    ensures Link(r.p.k, Zero(r.p), r.tokens, r.ends, r.starts, r.finals, j)
  {
    assert r.StepAt(j);
    if j > 0 {
      assert r.KeptAt(j);
      assert r.StepAt(j - 1);
    }
    StepIsLink(r, j);
  }

  /** Each step starts from the state after all tokens before it, and leaves the
      state after all tokens so far in the block that it ends in. */
  lemma StepsAreRight(r: Prefill, j: nat)
    requires r.IsRun() && j < |r.starts|
    ensures r.ends[j] <= r.ends[j + 1] <= |r.tokens|
    ensures r.starts[j] == StateAfter(r.p.k, Zero(r.p), r.tokens[..r.ends[j]])
    ensures r.finals[j] == StateAfter(r.p.k, Zero(r.p), r.tokens[..r.ends[j + 1]])
  {
    forall i {:trigger Link(r.p.k, Zero(r.p), r.tokens, r.ends, r.starts, r.finals, i)} | 0 <= i < |r.starts|
      ensures Link(r.p.k, Zero(r.p), r.tokens, r.ends, r.starts, r.finals, i)
    {
      RunLink(r, i);
    }
    ChainIsOneScan(r.p.k, Zero(r.p), r.tokens, r.ends, r.starts, r.finals, j);
  }

  /** Scanning a middle part from the state before it. */
  lemma MiddleOfScan(k: Arithmetic, start: Vec, tokens: seq<Token>, from: nat, to: nat, i: nat)
    requires from <= i < to <= |tokens|
    ensures var before, part := StateAfter(k, start, tokens[..from]), tokens[from..to];
            && Outs(k, before, part)[i - from] == Outs(k, start, tokens)[i]
            && Gateds(k, before, part)[i - from] == Gateds(k, start, tokens)[i]
  {
    var first, second := tokens[..from], tokens[from..];
    OutputsSplit(k, start, first, second, i - from);
    assert first + second == tokens;
    assert tokens[from..to][..i - from + 1] == second[..i - from + 1];
  }

  /** However a prompt is cut into steps, each step puts out what one scan of the
      whole prompt puts out at its positions. */
  lemma PromptComputesTheScan(r: Prefill, j: nat, i: nat)
    requires r.IsRun() && j < |r.starts| && r.ends[j] <= i < r.ends[j + 1]
    ensures i < r.ends[j + 1] <= |r.tokens|
    ensures var tokens := r.tokens[r.ends[j]..r.ends[j + 1]];
            && Outs(r.p.k, r.starts[j], tokens)[i - r.ends[j]] == Outs(r.p.k, Zero(r.p), r.tokens)[i]
            && Gateds(r.p.k, r.starts[j], tokens)[i - r.ends[j]] == Gateds(r.p.k, Zero(r.p), r.tokens)[i]
  {
    StepsAreRight(r, j);
    MiddleOfScan(r.p.k, Zero(r.p), r.tokens, r.ends[j], r.ends[j + 1], i);
  }

  /** Any step can be taken, from whatever cached states. */
  lemma StepExists(p: Program, row: seq<int>, size: nat, from: nat, to: nat, tokens: seq<Token>, before: seq<Vec>)
    returns (after: seq<Vec>, start: Vec, final: Vec)
    requires size > 0 && from < to <= |tokens| && BlocksIn(row, size, |tokens|, |before|)
    ensures |after| == |before| && StepBetween(p, row, size, from, to, tokens, before, after, start, final)
    ensures final == after[SlotOf(row, size, tokens, to, |before|)]
  {
    BlocksOfPrefix(row, size, |tokens|, |before|, to);
    StepFindsItsSlots(p, row, size, from, to, before);
    var q := StepProgram(p, row, size, from, to);
    start := StartState(q, before);
    after := ColumnAfter(q, start, tokens[from..to], before, |q.Chunks()|);
    final := after[SlotOf(row, size, tokens, to, |before|)];
  }
}
