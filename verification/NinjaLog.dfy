/** ReadTargets of tools/report_build_time_ninja.py: the records of the last
    build in a log that concatenates many builds. Times are milliseconds. */
module NinjaLog {

  const HEADER := "# ninja log v5\n"

  datatype Record = Record(start: int, end: int, name: string, cmdhash: string)

  /** A line that splits into five fields, or any other line. */
  datatype Line = Corrupt | Fields(record: Record)

  datatype Target = Target(start: int, end: int, names: seq<string>)

  datatype ReadResult = BadHeader | Targets(targets: seq<Target>)

  function Records(lines: seq<Line>): seq<Record> {
    if lines == [] then []
    else
      var front, last := Records(lines[..|lines| - 1]), lines[|lines| - 1];
      if last.Corrupt? then front else front + [last.record]
  }

  // ------------------------------------------------------------ segments

  /** Every record of the command has the times of `r`. */
  predicate TimesAgree(build: seq<Record>, r: Record) {
    forall i :: 0 <= i < |build| && build[i].cmdhash == r.cmdhash ==> build[i].start == r.start && build[i].end == r.end
  }

  /** `r` can belong to the same build as the records `build` before it: its end
      time does not go back, and a repeated command has unchanged times. */
  predicate Fits(build: seq<Record>, r: Record) {
    (build == [] || build[|build| - 1].end <= r.end) && TimesAgree(build, r)
  }

  /** The greedy left-to-right split into builds. */
  function Builds(records: seq<Record>): (builds: seq<seq<Record>>)
    ensures records == [] <==> builds == []
  {
    if records == [] then []
    else
      var front, r := Builds(records[..|records| - 1]), records[|records| - 1];
      if front != [] && Fits(front[|front| - 1], r)
      then front[..|front| - 1] + [front[|front| - 1] + [r]]
      else front + [[r]]
  }

  function LastBuild(records: seq<Record>): seq<Record> {
    var builds := Builds(records);
    if builds == [] then [] else builds[|builds| - 1]
  }

  function Concat(builds: seq<seq<Record>>): seq<Record> {
    if builds == [] then [] else Concat(builds[..|builds| - 1]) + builds[|builds| - 1]
  }

  /** Every record fits the ones before it. */
  ghost predicate IsOneBuild(build: seq<Record>) {
    && build != []
    && (|build| > 1 ==> IsOneBuild(build[..|build| - 1]))
    && Fits(build[..|build| - 1], build[|build| - 1])
  }

  ghost predicate AllBuilds(builds: seq<seq<Record>>) {
    forall i :: 0 <= i < |builds| ==> IsOneBuild(builds[i])
  }

  /** No build could have gone on with the first record of the next one. */
  ghost predicate Maximal(builds: seq<seq<Record>>) {
    forall i :: 0 <= i < |builds| - 1 ==> EndsThere(builds[i], builds[i + 1])
  }

  ghost predicate EndsThere(build: seq<Record>, next: seq<Record>) {
    next != [] && !Fits(build, next[0])
  }

  /** A split into builds, each as long as it can be. */
  ghost predicate IsGreedySplit(records: seq<Record>, builds: seq<seq<Record>>) {
    Concat(builds) == records && AllBuilds(builds) && Maximal(builds)
  }

  lemma OneBuildGrows(build: seq<Record>, r: Record)
    requires Fits(build, r) && (build == [] || IsOneBuild(build))
    ensures IsOneBuild(build + [r])
  {
    assert (build + [r])[..|build|] == build;
  }

  function Longer(builds: seq<seq<Record>>, r: Record): seq<seq<Record>>
    requires builds != []
  {
    builds[..|builds| - 1] + [builds[|builds| - 1] + [r]]
  }

  lemma ConcatSnoc(builds: seq<seq<Record>>, build: seq<Record>)
    ensures Concat(builds + [build]) == Concat(builds) + build
  {
    assert (builds + [build])[..|builds|] == builds;
  }

  lemma AllBuildsSnoc(builds: seq<seq<Record>>, build: seq<Record>)
    requires AllBuilds(builds) && IsOneBuild(build)
    ensures AllBuilds(builds + [build])
  {
  }

  lemma MaximalSnoc(builds: seq<seq<Record>>, build: seq<Record>)
    requires Maximal(builds) && (builds != [] ==> EndsThere(builds[|builds| - 1], build))
    ensures Maximal(builds + [build])
  {
  }

  lemma MaximalLonger(builds: seq<seq<Record>>, r: Record)
    requires builds != [] && builds[|builds| - 1] != [] && Maximal(builds)
    ensures Maximal(Longer(builds, r))
  {
    var front, last := builds[..|builds| - 1], builds[|builds| - 1];
    if front != [] {
      assert EndsThere(builds[|front| - 1], builds[|front| - 1 + 1]);
    }
    MaximalSnoc(front, last + [r]);
  }

  lemma AllBuildsLonger(builds: seq<seq<Record>>, r: Record)
    requires builds != [] && AllBuilds(builds) && Fits(builds[|builds| - 1], r)
    ensures builds[|builds| - 1] != [] && AllBuilds(Longer(builds, r))
  {
    var front, last := builds[..|builds| - 1], builds[|builds| - 1];
    assert IsOneBuild(last);
    OneBuildGrows(last, r);
    AllBuildsSnoc(front, last + [r]);
  }

  lemma ConcatLonger(builds: seq<seq<Record>>, r: Record)
    requires builds != []
    ensures Concat(Longer(builds, r)) == Concat(builds) + [r]
  {
    ConcatSnoc(builds[..|builds| - 1], builds[|builds| - 1] + [r]);
  }

  lemma NewBuildStarts(builds: seq<seq<Record>>, r: Record)
    requires AllBuilds(builds) && Maximal(builds) && (builds == [] || !Fits(builds[|builds| - 1], r))
    ensures Concat(builds + [[r]]) == Concat(builds) + [r]
    ensures AllBuilds(builds + [[r]]) && Maximal(builds + [[r]])
  {
    assert IsOneBuild([r]) by { assert Fits([], r) && [r][..0] == []; }
    ConcatSnoc(builds, [r]);
    AllBuildsSnoc(builds, [r]);
    MaximalSnoc(builds, [r]);
  }

  /** One step of the split. */
  lemma BuildsSnoc(records: seq<Record>, r: Record)
    ensures var front := Builds(records);
            Builds(records + [r]) ==
              if front != [] && Fits(front[|front| - 1], r) then Longer(front, r) else front + [[r]]
  {
    assert (records + [r])[..|records|] == records;
  }

  lemma {:induction false} BuildsIsGreedySplit(records: seq<Record>)
    ensures IsGreedySplit(records, Builds(records))
  {
    if records != [] {
      var rest, r := records[..|records| - 1], records[|records| - 1];
      BuildsIsGreedySplit(rest);
      var front := Builds(rest);
      assert records == rest + [r];
      if front != [] && Fits(front[|front| - 1], r) {
        ConcatLonger(front, r);
        AllBuildsLonger(front, r);
        MaximalLonger(front, r);
      } else {
        NewBuildStarts(front, r);
      }
    }
  }

  lemma BuildsStartNew(rest: seq<Record>, front: seq<seq<Record>>, r: Record)
    requires Builds(rest) == front && (front == [] || !Fits(front[|front| - 1], r))
    ensures Builds(rest + [r]) == front + [[r]]
  {
    BuildsSnoc(rest, r);
  }

  lemma BuildsGrowLast(rest: seq<Record>, front: seq<seq<Record>>, last: seq<Record>, r: Record)
    requires Builds(rest) == front + [last] && Fits(last, r)
    ensures Builds(rest + [r]) == front + [last + [r]]
  {
    BuildsSnoc(rest, r);
    assert (front + [last])[..|front|] == front;
  }

  /** There is only one greedy split. */
  lemma {:induction false} GreedySplitIsUnique(records: seq<Record>, builds: seq<seq<Record>>)
    requires IsGreedySplit(records, builds)
    ensures builds == Builds(records)
    decreases |records|
  {
    if builds != [] {
      var front, last := builds[..|builds| - 1], builds[|builds| - 1];
      assert IsOneBuild(last);
      var shorter, r := last[..|last| - 1], last[|last| - 1];
      var rest := Concat(front) + shorter;
      assert records == rest + [r] && builds == front + [last] && last == shorter + [r];
      if shorter == [] {
        FrontIsGreedy(builds);
        GreedySplitIsUnique(rest, front);
        BuildsStartNew(rest, front, r);
      } else {
        ShorterIsGreedy(builds);
        GreedySplitIsUnique(rest, front + [shorter]);
        BuildsGrowLast(rest, front, shorter, r);
      }
    }
  }

  lemma FrontIsGreedy(builds: seq<seq<Record>>)
    requires builds != [] && AllBuilds(builds) && Maximal(builds)
    ensures AllBuilds(builds[..|builds| - 1]) && Maximal(builds[..|builds| - 1])
    ensures |builds| > 1 ==> EndsThere(builds[|builds| - 2], builds[|builds| - 1])
  {
    if |builds| > 1 {
      assert EndsThere(builds[|builds| - 2], builds[|builds| - 2 + 1]);
    }
  }

  lemma ShorterIsGreedy(builds: seq<seq<Record>>)
    requires builds != [] && AllBuilds(builds) && Maximal(builds) && |builds[|builds| - 1]| > 1
    ensures var front, last := builds[..|builds| - 1], builds[|builds| - 1];
            IsGreedySplit(Concat(front) + last[..|last| - 1], front + [last[..|last| - 1]])
  {
    var front, last := builds[..|builds| - 1], builds[|builds| - 1];
    var shorter := last[..|last| - 1];
    assert IsOneBuild(last);
    FrontIsGreedy(builds);
    ConcatSnoc(front, shorter);
    AllBuildsSnoc(front, shorter);
    MaximalSnoc(front, shorter);
  }

  /** The records kept are a contiguous tail of the log with end times in order
      and one start and end per command. */
  lemma LastBuildIsATail(records: seq<Record>)
    ensures var build := LastBuild(records);
            && |build| <= |records| && build == records[|records| - |build|..]
            && (records != [] ==> build != [])
            && (forall i, j :: 0 <= i < j < |build| ==> build[i].end <= build[j].end)
            && forall i, j :: 0 <= i < j < |build| && build[i].cmdhash == build[j].cmdhash ==>
                 build[i].start == build[j].start && build[i].end == build[j].end
  {
    BuildsIsGreedySplit(records);
    var build := LastBuild(records);
    if records != [] {
      assert IsOneBuild(build);
      forall i, j | 0 <= i < j < |build|
        ensures build[i].end <= build[j].end
        ensures build[i].cmdhash == build[j].cmdhash ==>
                  build[i].start == build[j].start && build[i].end == build[j].end
      {
        OneBuildAgrees(build, i, j);
      }
    }
  }

  lemma {:induction false} OneBuildAgrees(build: seq<Record>, i: nat, j: nat)
    requires IsOneBuild(build) && i < j < |build|
    ensures build[i].end <= build[j].end
    ensures build[i].cmdhash == build[j].cmdhash ==> build[i].start == build[j].start && build[i].end == build[j].end
    decreases |build|
  {
    var front, last := build[..|build| - 1], |build| - 1;
    if j < last {
      OneBuildAgrees(front, i, j);
    } else {
      assert Fits(front, build[last]) && front[i] == build[i];
      if i < last - 1 {
        OneBuildAgrees(front, i, last - 1);
      }
    }
  }

  // ------------------------------------------------------------- targets

  /** The command hashes in order of first appearance. */
  function Hashes(build: seq<Record>): seq<string> {
    if build == [] then []
    else
      var front, h := Hashes(build[..|build| - 1]), build[|build| - 1].cmdhash;
      if h in front then front else front + [h]
  }

  function NamesOf(build: seq<Record>, h: string): seq<string> {
    if build == [] then []
    else
      var front, r := NamesOf(build[..|build| - 1], h), build[|build| - 1];
      if r.cmdhash == h then front + [r.name] else front
  }

  /** The first record of a command. */
  function FirstOf(build: seq<Record>, h: string): (r: Record)
    requires h in Hashes(build)
    ensures r in build && r.cmdhash == h
  {
    var front := build[..|build| - 1];
    if h in Hashes(front) then FirstOf(front, h) else build[|build| - 1]
  }

  function TargetOf(build: seq<Record>, h: string): Target
    requires h in Hashes(build)
  {
    Target(FirstOf(build, h).start, FirstOf(build, h).end, NamesOf(build, h))
  }

  function TargetsOf(build: seq<Record>): seq<Target> {
    var hs := Hashes(build);
    seq(|hs|, i requires 0 <= i < |hs| => TargetOf(build, hs[i]))
  }

  lemma {:induction false} HashesContents(build: seq<Record>)
    ensures forall h :: h in Hashes(build) <==> exists r :: r in build && r.cmdhash == h
    ensures forall i, j :: 0 <= i < j < |Hashes(build)| ==> Hashes(build)[i] != Hashes(build)[j]
  {
    if build != [] {
      var front, r := build[..|build| - 1], build[|build| - 1];
      HashesContents(front);
      assert build == front + [r];
    }
  }

  /** The dictionary after reading the records of one build. */
  ghost predicate DictOf(build: seq<Record>, order: seq<string>, table: map<string, Target>)
  {
    && order == Hashes(build) && table.Keys == (set h | h in order)
    && forall h :: h in order ==> table[h] == TargetOf(build, h)
  }

  lemma DictAppend(build: seq<Record>, order: seq<string>, table: map<string, Target>, r: Record)
    requires DictOf(build, order, table)
    ensures var h := r.cmdhash;
            if h in table
            then DictOf(build + [r], order, table[h := table[h].(names := table[h].names + [r.name])])
            else DictOf(build + [r], order + [h], table[h := Target(r.start, r.end, [r.name])])
  {
    var longer, h := build + [r], r.cmdhash;
    assert longer[..|build|] == build;
    HashesContents(build);
    if h !in table {
      NoNames(build, h);
    }
    forall g | g in Hashes(build)
      ensures TargetOf(longer, g) ==
              TargetOf(build, g).(names := NamesOf(build, g) + if g == h then [r.name] else [])
    {
    }
  }

  lemma {:induction false} NoNames(build: seq<Record>, h: string)
    requires h !in Hashes(build)
    ensures NamesOf(build, h) == []
  {
    if build != [] {
      NoNames(build[..|build| - 1], h);
    }
  }

  /** The dictionary keeps the times of the first record of each command, which
      within a build are those of all. */
  lemma DictTimes(build: seq<Record>, order: seq<string>, table: map<string, Target>, r: Record)
    requires DictOf(build, order, table)
    requires forall i, j :: 0 <= i < j < |build| && build[i].cmdhash == build[j].cmdhash ==>
               build[i].start == build[j].start && build[i].end == build[j].end
    ensures var h := r.cmdhash;
            TimesAgree(build, r) <==> !(h in table && (table[h].start != r.start || table[h].end != r.end))
  {
    var h := r.cmdhash;
    HashesContents(build);
    if h in table {
      var first := FirstOf(build, h);
      var k :| 0 <= k < |build| && build[k] == first;
      assert table[h].start == first.start && table[h].end == first.end;
      forall i | 0 <= i < |build| && build[i].cmdhash == h
        ensures build[i].start == first.start && build[i].end == first.end
      {
      }
    }
  }

  /** The dictionary suffices to tell whether the next record fits. */
  lemma DictDecidesFit(records: seq<Record>, order: seq<string>, table: map<string, Target>, r: Record)
    requires records != [] && DictOf(LastBuild(records), order, table)
    ensures var h := r.cmdhash;
            Fits(LastBuild(records), r) <==>
            && !(r.end < records[|records| - 1].end)
            && !(h in table && (table[h].start != r.start || table[h].end != r.end))
  {
    var build := LastBuild(records);
    LastBuildIsATail(records);
    assert build[|build| - 1] == records[|records| - 1];
    DictTimes(build, order, table, r);
    assert Fits(build, r) <==> build[|build| - 1].end <= r.end && TimesAgree(build, r);
  }

  lemma LastBuildSnoc(records: seq<Record>, r: Record)
    ensures LastBuild(records + [r]) ==
            if records != [] && Fits(LastBuild(records), r) then LastBuild(records) + [r] else [r]
  {
    BuildsSnoc(records, r);
  }

  function Kept(records: seq<Record>, showAll: bool): seq<Record> {
    if showAll then records else LastBuild(records)
  }

  /** The loop starts over exactly when the record belongs to a new build. */
  lemma RestartRule(seen: seq<Record>, showAll: bool, order: seq<string>, table: map<string, Target>, lastEnd: int, r: Record)
    requires DictOf(Kept(seen, showAll), order, table) && lastEnd == LastEnd(seen)
    ensures Kept(seen + [r], showAll) == (if Restarts(showAll, table, lastEnd, r) then [] else Kept(seen, showAll)) + [r]
  {
    if !showAll {
      LastBuildSnoc(seen, r);
      if seen != [] {
        DictDecidesFit(seen, order, table, r);
      }
    }
  }

  function LastEnd(seen: seq<Record>): int {
    if seen == [] then 0 else seen[|seen| - 1].end
  }

  predicate Restarts(showAll: bool, table: map<string, Target>, lastEnd: int, r: Record) {
    && !showAll
    && (r.end < lastEnd
        || (r.cmdhash in table && (table[r.cmdhash].start != r.start || table[r.cmdhash].end != r.end)))
  }

  lemma EmptyDict()
    ensures DictOf([], [], map[])
  {
  }

  lemma RecordsSnoc(lines: seq<Line>, i: nat)
    requires i < |lines|
    ensures lines[i].Corrupt? ==> Records(lines[..i + 1]) == Records(lines[..i])
    ensures lines[i].Fields? ==> Records(lines[..i + 1]) == Records(lines[..i]) + [lines[i].record]
  {
    assert lines[..i + 1][..i] == lines[..i];
  }

  /** Finds the target of the command, or enters a new one, and adds the name. */
  method AddRecord(ghost build: seq<Record>, order: seq<string>, table: map<string, Target>, r: Record)
    returns (order': seq<string>, table': map<string, Target>)
    requires DictOf(build, order, table)
    ensures DictOf(build + [r], order', table')
  {
    DictAppend(build, order, table, r);
    var h := r.cmdhash;
    if h in table {
      order', table' := order, table[h := table[h].(names := table[h].names + [r.name])];
    } else {
      order', table' := order + [h], table[h := Target(r.start, r.end, [r.name])];
    }
  }

  method Values(ghost build: seq<Record>, order: seq<string>, table: map<string, Target>) returns (targets: seq<Target>)
    requires DictOf(build, order, table)
    ensures targets == TargetsOf(build)
  {
    targets := seq(|order|, i requires 0 <= i < |order| && order[i] in table => table[order[i]]);
  }

  method ReadTargets(header: string, lines: seq<Line>, showAll: bool) returns (r: ReadResult)
    ensures r.BadHeader? <==> header != HEADER
    ensures r.Targets? ==> r.targets == TargetsOf(Kept(Records(lines), showAll))
  {
    if header != HEADER {
      return BadHeader;
    }
    var order: seq<string>, table: map<string, Target> := [], map[];
    var lastEndSeen := 0;
    for i := 0 to |lines|
      invariant DictOf(Kept(Records(lines[..i]), showAll), order, table)
      invariant lastEndSeen == LastEnd(Records(lines[..i]))
    {
      RecordsSnoc(lines, i);
      if lines[i].Fields? {
        var line := lines[i].record;
        order, table := ReadRecord(Records(lines[..i]), showAll, order, table, lastEndSeen, line);
        lastEndSeen := line.end;
      }
    }
    assert lines[..|lines|] == lines;
    var targets := Values(Kept(Records(lines), showAll), order, table);
    r := Targets(targets);
  }

  /** The body of the loop for a line with five fields. */
  method ReadRecord(ghost seen: seq<Record>, showAll: bool, order: seq<string>, table: map<string, Target>,
                    lastEndSeen: int, line: Record)
    returns (order': seq<string>, table': map<string, Target>)
    requires DictOf(Kept(seen, showAll), order, table) && lastEndSeen == LastEnd(seen)
    ensures DictOf(Kept(seen + [line], showAll), order', table')
  {
    ghost var kept := if Restarts(showAll, table, lastEndSeen, line) then [] else Kept(seen, showAll);
    RestartRule(seen, showAll, order, table, lastEndSeen, line);
    EmptyDict();
    order', table' := order, table;
    if !showAll && line.end < lastEndSeen {
      order', table' := [], map[];
    }
    var h := line.cmdhash;
    if h in table' && !showAll && (table'[h].start != line.start || table'[h].end != line.end) {
      order', table' := [], map[];
    }
    order', table' := AddRecord(kept, order', table', line);
  }

  function NamesIn(targets: seq<Target>): multiset<string> {
    if targets == [] then multiset{} else NamesIn(targets[..|targets| - 1]) + multiset(targets[|targets| - 1].names)
  }

  function AllNames(build: seq<Record>): seq<string> {
    if build == [] then [] else AllNames(build[..|build| - 1]) + [build[|build| - 1].name]
  }

  /** Every line's output name is recorded in exactly one target. */
  lemma {:induction false} EveryNameRecordedOnce(build: seq<Record>)
    ensures NamesIn(TargetsOf(build)) == multiset(AllNames(build))
  {
    if build != [] {
      var front, r := build[..|build| - 1], build[|build| - 1];
      EveryNameRecordedOnce(front);
      if r.cmdhash in Hashes(front) {
        RepeatedCommand(build);
      } else {
        NewCommand(build);
      }
    }
  }

  lemma RepeatedCommand(build: seq<Record>)
    requires build != [] && build[|build| - 1].cmdhash in Hashes(build[..|build| - 1])
    ensures NamesIn(TargetsOf(build)) == NamesIn(TargetsOf(build[..|build| - 1])) + multiset{build[|build| - 1].name}
  {
    var front, r := build[..|build| - 1], build[|build| - 1];
    HashesContents(front);
    var hs := Hashes(front);
    var i :| 0 <= i < |hs| && hs[i] == r.cmdhash;
    var was, now := TargetsOf(front), TargetsOf(build);
    assert now[i].names == was[i].names + [r.name];
    forall j | 0 <= j < |was| && j != i ensures now[j] == was[j] {
      OtherTarget(build, hs[j]);
    }
    OneMoreName(was, now, i, r.name);
  }

  lemma NewCommand(build: seq<Record>)
    requires build != [] && build[|build| - 1].cmdhash !in Hashes(build[..|build| - 1])
    ensures NamesIn(TargetsOf(build)) == NamesIn(TargetsOf(build[..|build| - 1])) + multiset{build[|build| - 1].name}
  {
    var front, r := build[..|build| - 1], build[|build| - 1];
    var hs := Hashes(front);
    var was, now := TargetsOf(front), TargetsOf(build);
    assert now[|hs|].names == [r.name] by {
      NoNames(front, r.cmdhash);
      assert now[|hs|] == TargetOf(build, r.cmdhash);
    }
    assert now[..|hs|] == was by {
      forall i | 0 <= i < |hs| ensures now[i] == was[i] {
        OtherTarget(build, hs[i]);
      }
    }
  }

  lemma OtherTarget(build: seq<Record>, h: string)
    requires build != [] && build[|build| - 1].cmdhash != h && h in Hashes(build[..|build| - 1])
    ensures h in Hashes(build) && TargetOf(build, h) == TargetOf(build[..|build| - 1], h)
  {
  }

  lemma {:induction false} OneMoreName(was: seq<Target>, now: seq<Target>, i: nat, name: string)
    requires i < |was| == |now| && now[i].names == was[i].names + [name]
    requires forall j :: 0 <= j < |was| && j != i ==> now[j] == was[j]
    ensures NamesIn(now) == NamesIn(was) + multiset{name}
    decreases |was|
  {
    var last := |was| - 1;
    if i < last {
      OneMoreName(was[..last], now[..last], i, name);
    } else {
      assert now[..last] == was[..last];
    }
  }

  // ------------------------------------------------------------------- order

  ghost predicate Increasing(at: seq<nat>) {
    forall i, j :: 0 <= i < j < |at| ==> at[i] < at[j]
  }

  /** Record `k` is the first of its command. */
  ghost predicate IsFirst(build: seq<Record>, k: nat) {
    k < |build| && forall j :: 0 <= j < k ==> build[j].cmdhash != build[k].cmdhash
  }

  /** The hashes are those of the first records, in order. */
  ghost predicate FirstsAt(build: seq<Record>, at: seq<nat>) {
    && |at| == |Hashes(build)| && Increasing(at)
    && forall i {:trigger at[i]} :: 0 <= i < |at| ==> IsFirst(build, at[i]) && Hashes(build)[i] == build[at[i]].cmdhash
  }

  lemma StaysFirst(build: seq<Record>, k: nat)
    requires build != [] && IsFirst(build[..|build| - 1], k)
    ensures IsFirst(build, k) && build[k] == build[..|build| - 1][k]
  {
  }

  lemma NewIsFirst(build: seq<Record>)
    requires build != [] && build[|build| - 1].cmdhash !in Hashes(build[..|build| - 1])
    ensures IsFirst(build, |build| - 1)
  {
    var front, n := build[..|build| - 1], |build| - 1;
    HashesContents(front);
    forall j | 0 <= j < n ensures build[j].cmdhash != build[n].cmdhash {
      assert front[j] in front;
    }
  }

  lemma {:induction false} HashesInOrder(build: seq<Record>) returns (at: seq<nat>)
    ensures FirstsAt(build, at)
  {
    if build == [] {
      at := [];
    } else {
      var n := |build| - 1;
      var before := HashesInOrder(build[..n]);
      at := OneMoreFirst(build, before);
    }
  }

  lemma OneMoreFirst(build: seq<Record>, before: seq<nat>) returns (at: seq<nat>)
    requires build != [] && FirstsAt(build[..|build| - 1], before)
    ensures FirstsAt(build, at)
  {
    var front, n := build[..|build| - 1], |build| - 1;
    forall i {:trigger before[i]} | 0 <= i < |before|
      ensures before[i] < n && IsFirst(build, before[i]) && Hashes(front)[i] == build[before[i]].cmdhash
    {
      StaysFirst(build, before[i]);
    }
    at := before;
    if build[n].cmdhash !in Hashes(front) {
      NewIsFirst(build);
      at := before + [n];
    }
  }

  lemma {:induction false} FirstOfIs(build: seq<Record>, k: nat)
    requires IsFirst(build, k) && build[k].cmdhash in Hashes(build)
    ensures FirstOf(build, build[k].cmdhash) == build[k]
  {
    var front := build[..|build| - 1];
    HashesContents(front);
    if k < |front| {
      assert front[k] in front && IsFirst(front, k);
      FirstOfIs(front, k);
    }
  }

  /** The targets come in the order in which their commands first appear, each with
      the times of that first record. */
  lemma TargetsInOrder(build: seq<Record>) returns (at: seq<nat>)
    ensures |at| == |TargetsOf(build)| && Increasing(at)
    ensures forall i :: 0 <= i < |at| ==>
              && IsFirst(build, at[i])
              && TargetsOf(build)[i].start == build[at[i]].start && TargetsOf(build)[i].end == build[at[i]].end
              && TargetsOf(build)[i].names == NamesOf(build, build[at[i]].cmdhash)
  {
    at := HashesInOrder(build);
    forall i {:trigger at[i]} | 0 <= i < |at| ensures FirstOf(build, Hashes(build)[i]) == build[at[i]] {
      assert Hashes(build)[i] in Hashes(build);
      FirstOfIs(build, at[i]);
    }
  }

  /** The names of a target are those of its command's records, in log order. */
  lemma {:induction false} NamesInOrder(build: seq<Record>, h: string) returns (at: seq<nat>)
    ensures Increasing(at) && forall k: nat :: k in at <==> k < |build| && build[k].cmdhash == h
    ensures |NamesOf(build, h)| == |at| && forall i :: 0 <= i < |at| ==> at[i] < |build| && NamesOf(build, h)[i] == build[at[i]].name
  {
    if build == [] {
      at := [];
    } else {
      var n := |build| - 1;
      at := NamesInOrder(build[..n], h);
      forall i | 0 <= i < |at| ensures at[i] < n {
        assert at[i] in at;
      }
      if build[n].cmdhash == h {
        at := at + [n];
      }
    }
  }

  // ------------------------------------------------------------- why it is cut

  /** The record contradicts the build: it ends before the build's last record, or
      a record of the same command has other times. */
  ghost predicate Contradicts(build: seq<Record>, r: Record) {
    || (build != [] && r.end < build[|build| - 1].end)
    || exists i :: 0 <= i < |build| && build[i].cmdhash == r.cmdhash && (build[i].start != r.start || build[i].end != r.end)
  }

  /** The log is cut exactly at the records that contradict the build before them. */
  lemma CutsAtContradictions(records: seq<Record>, i: nat, k: nat)
    requires i < |Builds(records)| && k < |Builds(records)[i]|
    ensures k > 0 ==> !Contradicts(Builds(records)[i][..k], Builds(records)[i][k])
    ensures k == 0 && i > 0 ==> Contradicts(Builds(records)[i - 1], Builds(records)[i][0])
  {
    BuildsIsGreedySplit(records);
    var builds := Builds(records);
    assert IsOneBuild(builds[i]);
    if k > 0 {
      RecordFits(builds[i], k);
    } else if i > 0 {
      assert EndsThere(builds[i - 1], builds[i - 1 + 1]);
    }
  }

  lemma {:induction false} RecordFits(build: seq<Record>, k: nat)
    requires IsOneBuild(build) && k < |build|
    ensures Fits(build[..k], build[k])
  {
    if k < |build| - 1 {
      RecordFits(build[..|build| - 1], k);
      assert build[..|build| - 1][..k] == build[..k];
    }
  }
}
