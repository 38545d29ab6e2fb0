/** Which replies of the driver make the calls of csrc/cumem_allocator.cpp succeed,
    call by call: the exact conditions, and what a willing driver achieves. */
module DriverReplies {

  import opened ChunkPlan
  import opened RocmDevice
  import opened AllocatorRuns

  /** What the next driver call meets: a status (0 for success) and, where the
      call returns something, the value. A reply the driver could not give, such
      as an overlapping address, counts as a failure. */
  datatype Reply = Reply(status: int, value: nat)

  /** How create_and_map ends, with the statuses of its clean-up calls, which the
      code does not look at. `Stale` is an error that was pending on entry. */
  datatype Exit =
    | Done
    | CreateFailed(rs: seq<int>)
    | MapFailed(us: seq<int>, rs: seq<int>)
    | AccessFailed
    | ZeroFailed
    | Stale

  // ------------------------------------------- which replies make a call succeed

  /** Reply `k`; a driver that has nothing more to say fails. */
  function ReplyAt(script: seq<Reply>, k: nat): Reply {
    if k < |script| then script[k] else Reply(1, 0)
  }

  function After(script: seq<Reply>, k: nat): seq<Reply> {
    if k <= |script| then script[k..] else []
  }

  /** What a call reports that the driver could grant or not. */
  function Status(r: Reply, possible: bool): int {
    if r.status != 0 then r.status else if possible then 0 else 1
  }

  lemma AfterAfter(script: seq<Reply>, a: nat, b: nat)
    ensures After(After(script, a), b) == After(script, a + b)
    ensures ReplyAt(After(script, a), b) == ReplyAt(script, a + b)
  {
  }

  predicate Grants(d: Device, r: Reply, size: nat, alignment: nat) {
    r.status == 0 && CanReserve(d, r.value, size) && (alignment == 0 || r.value % alignment == 0)
  }

  /** reserve_rocm_address gets its range at the first try, or at the second one,
      without alignment, if that is aligned by chance. */
  predicate Reserves(d: Device, script: seq<Reply>, size: nat, alignment: nat) {
    || Grants(d, ReplyAt(script, 0), size, alignment)
    || (alignment > 0 && Grants(d, ReplyAt(script, 1), size, 0) && ReplyAt(script, 1).value % alignment == 0)
  }

  function ReservedAt(d: Device, script: seq<Reply>, size: nat, alignment: nat): Addr {
    ReplyAt(script, if Grants(d, ReplyAt(script, 0), size, alignment) then 0 else 1).value
  }

  function ReserveCalls(d: Device, script: seq<Reply>, size: nat, alignment: nat): nat {
    if Grants(d, ReplyAt(script, 0), size, alignment) || alignment == 0 then 1
    else if Grants(d, ReplyAt(script, 1), size, 0) && ReplyAt(script, 1).value % alignment != 0 then 3
    else 2
  }

  /** my_malloc learns the granularity and gets a range. */
  predicate GetsRange(d: Device, script: seq<Reply>, requested: nat) {
    var g := ReplyAt(script, 0).value;
    && ReplyAt(script, 0).status == 0 && 0 < g < WRAP
    && 0 <= RoundUp(requested, g) && Reserves(d, After(script, 1), RoundUp(requested, g), g)
  }

  function RangeAt(d: Device, script: seq<Reply>, requested: nat): Addr
    requires GetsRange(d, script, requested)
  {
    var g := ReplyAt(script, 0).value;
    ReservedAt(d, After(script, 1), RoundUp(requested, g), g)
  }

  function RangeCalls(d: Device, script: seq<Reply>, requested: nat): nat
    requires GetsRange(d, script, requested)
  {
    var g := ReplyAt(script, 0).value;
    1 + ReserveCalls(d, After(script, 1), RoundUp(requested, g), g)
  }

  /** And it gets through with all its chunks. */
  ghost predicate Allocates(d: Device, script: seq<Reply>, requested: nat, env: Setting)
    requires GetsRange(d, script, requested)
  {
    var g := ReplyAt(script, 0).value;
    var a, size := RangeAt(d, script, requested), RoundUp(requested, g);
    RoundUpIff(BaseChunk(env), g);
    && RoundUp(BaseChunk(env), g) > 0
    && Builds(Reserved(d, a, size), After(script, RangeCalls(d, script, requested)), a, ChunkSizes(size, RoundUp(BaseChunk(env), g)))
  }

  /** The range is freed, and the same one is reserved again. */
  predicate Rereserves(d: Device, script: seq<Reply>, a: Addr, size: nat) {
    && ReplyAt(script, 0).status == 0 && CanFree(d, a, size)
    && Grants(Unreserved(d, a), ReplyAt(script, 1), size, 0) && ReplyAt(script, 1).value == a
  }

  /** The first `n` replies are successes, and their values. */
  predicate Willing(script: seq<Reply>, n: nat) {
    forall i :: 0 <= i < n ==> ReplyAt(script, i).status == 0
  }

  function Values(script: seq<Reply>, n: nat): seq<nat> {
    seq(n, i requires 0 <= i => ReplyAt(script, i).value)
  }

  /** Every chunk gets a new handle. */
  ghost predicate Creates(d: Device, script: seq<Reply>, n: nat) {
    Willing(script, n) && Fresh(d, Values(script, n))
  }

  /** Every chunk can be mapped behind those before it, and is. */
  ghost predicate MapsAll(d: Device, script: seq<Reply>, base: Addr, sizes: seq<nat>, hs: seq<Handle>)
    requires |hs| == |sizes|
  {
    Willing(script, |hs|) && forall i :: 0 <= i < |hs| ==> CanMapNext(d, base, sizes, hs, i)
  }

  ghost predicate CanMapNext(d: Device, base: Addr, sizes: seq<nat>, hs: seq<Handle>, i: nat)
    requires i < |hs| == |sizes|
  {
    CanMap(Mapped(d, base, sizes, hs, i), base + Offset(sizes, i), sizes[i], hs[i])
  }

  /** create_and_map gets through: all created, all mapped, access and zeroing. */
  ghost predicate Builds(d: Device, script: seq<Reply>, base: Addr, sizes: seq<nat>) {
    var n, hs := |sizes|, Values(script, |sizes|);
    && Creates(d, script, n) && MapsAll(Created(d, sizes, hs, n), After(script, n), base, sizes, hs)
    && ReplyAt(script, 2 * n).status == 0 && ReplyAt(script, 2 * n + 1).status == 0
  }

  // --------------------------------------------------- calls one after the other

  /** The status with which creation `i` fails, those before having succeeded. */
  function CreateStatus(d: Device, script: seq<Reply>, sizes: seq<nat>, i: nat): int
    requires i <= |sizes|
  {
    Status(ReplyAt(script, i), ReplyAt(script, i).value !in Created(d, sizes, Values(script, i), i).handles)
  }

  /** A handle that is in use ends the creation. */
  lemma NotNew(d: Device, script: seq<Reply>, sizes: seq<nat>, i: nat)
    requires i < |sizes| && Fresh(d, Values(script, i))
    requires ReplyAt(script, i).value in Created(d, sizes, Values(script, i), i).handles
    ensures !Fresh(d, Values(script, |sizes|))
  {
    var hs, all := Values(script, i), Values(script, |sizes|);
    var h := ReplyAt(script, i).value;
    assert all[i] == h;
    if h !in d.handles {
      ChunkHandleKeys(sizes, hs, i, h);
      var j :| 0 <= j < i && hs[j] == h;
      assert all[j] == h;
    }
  }

  lemma {:induction false} ChunksBefore(sizes: seq<nat>, hs: seq<Handle>, h: Handle, n: nat)
    requires n <= |hs| < |sizes|
    ensures ChunkHandles(sizes, hs + [h], n) == ChunkHandles(sizes, hs, n)
  {
    if n > 0 {
      ChunksBefore(sizes, hs, h, n - 1);
    }
  }

  lemma CreateOneMore(d: Device, sizes: seq<nat>, hs: seq<Handle>, h: Handle)
    requires |hs| < |sizes| && Fresh(d, hs) && h !in Created(d, sizes, hs, |hs|).handles
    ensures Fresh(d, hs + [h])
    ensures var before := Created(d, sizes, hs, |hs|);
            Created(d, sizes, hs + [h], |hs| + 1) == before.(handles := before.handles[h := sizes[|hs|]])
  {
    ChunksBefore(sizes, hs, h, |hs|);
    ChunkHandleKeys(sizes, hs, |hs|, h);
  }

  /** The statuses of unmapping the first chunks, and of releasing handles, one
      after the other whatever the ones before returned. */
  ghost predicate UnmapsBy(d: Device, script: seq<Reply>, base: Addr, sizes: seq<nat>, us: seq<int>) {
    |us| <= |sizes| && forall i :: 0 <= i < |us| ==> us[i] == UnmapStatus(d, script, base, sizes, us, i)
  }

  function UnmapStatus(d: Device, script: seq<Reply>, base: Addr, sizes: seq<nat>, us: seq<int>, i: nat): int
    requires i < |us| <= |sizes|
  {
    var before := d.(maps := d.maps - UnmappedOf(base, sizes, us[..i]));
    Status(ReplyAt(script, i), CanUnmap(before, base + Offset(sizes, i), sizes[i]))
  }

  ghost predicate ReleasesBy(d: Device, script: seq<Reply>, hs: seq<Handle>, rs: seq<int>) {
    |rs| <= |hs| && forall i :: 0 <= i < |rs| ==> rs[i] == ReleaseStatus(d, script, hs, rs, i)
  }

  function ReleaseStatus(d: Device, script: seq<Reply>, hs: seq<Handle>, rs: seq<int>, i: nat): int
    requires i < |rs| <= |hs|
  {
    Status(ReplyAt(script, i), hs[i] in d.handles - ReleasedOf(hs, rs[..i]))
  }

  /** Where a row of unmap calls stands: what it returned, the device and the
      replies left. */
  ghost predicate UnmappedSoFar(d: Device, script: seq<Reply>, base: Addr, sizes: seq<nat>, us: seq<int>, d': Device, script': seq<Reply>) {
    UnmappedParts(d, script, base, sizes, us, d', script') == true
  }

  ghost predicate UnmappedParts(d: Device, script: seq<Reply>, base: Addr, sizes: seq<nat>, us: seq<int>, d': Device, script': seq<Reply>) {
    && UnmapsBy(d, script, base, sizes, us) && script' == After(script, |us|)
    && d' == d.(maps := d.maps - UnmappedOf(base, sizes, us))
  }

  lemma UnmapGoesOn(d: Device, script: seq<Reply>, base: Addr, sizes: seq<nat>, us: seq<int>, d': Device, script': seq<Reply>,
                    status: int, d'': Device)
    requires |us| < |sizes| && UnmappedSoFar(d, script, base, sizes, us, d', script')
    requires status == Status(ReplyAt(script', 0), CanUnmap(d', base + Offset(sizes, |us|), sizes[|us|]))
    requires d'' == if status == 0 then d'.(maps := d'.maps - {base + Offset(sizes, |us|)}) else d'
    ensures UnmappedSoFar(d, script, base, sizes, us + [status], d'', After(script', 1))
  {
    AfterAfter(script, |us|, 0);
    AfterAfter(script, |us|, 1);
    OneMoreUnmapped(d, script, base, sizes, us, status);
    UnmappedSnoc(d.maps, base, sizes, us, status);
  }

  lemma OneMoreUnmapped(d: Device, script: seq<Reply>, base: Addr, sizes: seq<nat>, us: seq<int>, status: int)
    requires |us| < |sizes| && UnmapsBy(d, script, base, sizes, us)
    requires var before := d.(maps := d.maps - UnmappedOf(base, sizes, us));
             status == Status(ReplyAt(script, |us|), CanUnmap(before, base + Offset(sizes, |us|), sizes[|us|]))
    ensures (us + [status])[..|us|] == us && UnmapsBy(d, script, base, sizes, us + [status])
  {
    var us' := us + [status];
    assert us'[..|us|] == us;
    forall i | 0 <= i < |us'| ensures us'[i] == UnmapStatus(d, script, base, sizes, us', i) {
      if i < |us| {
        assert us'[..i] == us[..i];
        assert us[i] == UnmapStatus(d, script, base, sizes, us, i);
      }
    }
  }

  ghost predicate ReleasedSoFar(d: Device, script: seq<Reply>, hs: seq<Handle>, rs: seq<int>, d': Device, script': seq<Reply>) {
    ReleasedParts(d, script, hs, rs, d', script') == true
  }

  ghost predicate ReleasedParts(d: Device, script: seq<Reply>, hs: seq<Handle>, rs: seq<int>, d': Device, script': seq<Reply>) {
    && ReleasesBy(d, script, hs, rs) && script' == After(script, |rs|)
    && d' == d.(handles := d.handles - ReleasedOf(hs, rs))
  }

  lemma ReleaseGoesOn(d: Device, script: seq<Reply>, hs: seq<Handle>, rs: seq<int>, d': Device, script': seq<Reply>,
                      status: int, d'': Device)
    requires |rs| < |hs| && ReleasedSoFar(d, script, hs, rs, d', script')
    requires status == Status(ReplyAt(script', 0), hs[|rs|] in d'.handles)
    requires d'' == if status == 0 then d'.(handles := d'.handles - {hs[|rs|]}) else d'
    ensures ReleasedSoFar(d, script, hs, rs + [status], d'', After(script', 1))
  {
    AfterAfter(script, |rs|, 0);
    AfterAfter(script, |rs|, 1);
    OneMoreReleased(d, script, hs, rs, status);
    ReleasedSnoc(d.handles, hs, rs, status);
  }

  lemma ReleasedSnoc(handles: map<Handle, nat>, hs: seq<Handle>, rs: seq<int>, status: int)
    requires |rs| < |hs|
    ensures var before := handles - ReleasedOf(hs, rs);
            handles - ReleasedOf(hs, rs + [status]) == if status == 0 then before - {hs[|rs|]} else before
  {
    assert (rs + [status])[..|rs|] == rs;
    assert ReleasedOf(hs, rs) + {} == ReleasedOf(hs, rs);
  }

  lemma UnmappedSnoc(maps: map<Addr, Mapping>, base: Addr, sizes: seq<nat>, us: seq<int>, status: int)
    requires |us| < |sizes|
    ensures var before := maps - UnmappedOf(base, sizes, us);
            maps - UnmappedOf(base, sizes, us + [status]) ==
            if status == 0 then before - {base + Offset(sizes, |us|)} else before
  {
    assert (us + [status])[..|us|] == us;
    assert UnmappedOf(base, sizes, us) + {} == UnmappedOf(base, sizes, us);
  }

  lemma OneMoreReleased(d: Device, script: seq<Reply>, hs: seq<Handle>, rs: seq<int>, status: int)
    requires |rs| < |hs| && ReleasesBy(d, script, hs, rs)
    requires status == Status(ReplyAt(script, |rs|), hs[|rs|] in d.handles - ReleasedOf(hs, rs))
    ensures (rs + [status])[..|rs|] == rs && ReleasesBy(d, script, hs, rs + [status])
  {
    var rs' := rs + [status];
    assert rs'[..|rs|] == rs;
    forall i | 0 <= i < |rs'| ensures rs'[i] == ReleaseStatus(d, script, hs, rs', i) {
      if i < |rs| {
        assert rs'[..i] == rs[..i];
        assert rs[i] == ReleaseStatus(d, script, hs, rs, i);
      }
    }
  }

  /** Where the creation of handles stands, none having failed. */
  ghost predicate CreatedSoFar(d: Device, script: seq<Reply>, sizes: seq<nat>, hs: seq<Handle>, d': Device, script': seq<Reply>) {
    CreatedParts(d, script, sizes, hs, d', script') == true
  }

  ghost predicate CreatedParts(d: Device, script: seq<Reply>, sizes: seq<nat>, hs: seq<Handle>, d': Device, script': seq<Reply>) {
    && |hs| <= |sizes| && hs == Values(script, |hs|) && Creates(d, script, |hs|)
    && d' == Created(d, sizes, hs, |hs|) && script' == After(script, |hs|)
  }

  lemma CreateGoesOn(d: Device, script: seq<Reply>, sizes: seq<nat>, hs: seq<Handle>, d': Device, script': seq<Reply>, h: Handle)
    requires |hs| < |sizes| && CreatedSoFar(d, script, sizes, hs, d', script')
    requires ReplyAt(script', 0) == Reply(0, h) && h !in d'.handles
    ensures CreatedSoFar(d, script, sizes, hs + [h], d'.(handles := d'.handles[h := sizes[|hs|]]), After(script', 1))
  {
    AfterAfter(script, |hs|, 0);
    AfterAfter(script, |hs|, 1);
    CreateOneMore(d, sizes, hs, h);
    ValuesNext(script, |hs|);
  }

  lemma ValuesNext(script: seq<Reply>, n: nat)
    ensures Values(script, n + 1) == Values(script, n) + [ReplyAt(script, n).value]
  {
  }

  lemma CreateStops(d: Device, script: seq<Reply>, sizes: seq<nat>, hs: seq<Handle>, d': Device, script': seq<Reply>)
    requires |hs| < |sizes| && CreatedSoFar(d, script, sizes, hs, d', script')
    requires ReplyAt(script', 0).status != 0 || ReplyAt(script', 0).value in d'.handles
    ensures !Creates(d, script, |sizes|)
    ensures CreateStatus(d, script, sizes, |hs|) == Status(ReplyAt(script', 0), ReplyAt(script', 0).value !in d'.handles)
  {
    AfterAfter(script, |hs|, 0);
    if ReplyAt(script, |hs|).status == 0 {
      NotNew(d, script, sizes, |hs|);
    }
  }

  /** Where the mapping of chunks stands, none having failed. */
  ghost predicate MappedSoFar(d: Device, script: seq<Reply>, base: Addr, sizes: seq<nat>, hs: seq<Handle>, n: nat,
                              d': Device, script': seq<Reply>)
  {
    MappedParts(d, script, base, sizes, hs, n, d', script') == true
  }

  ghost predicate MappedParts(d: Device, script: seq<Reply>, base: Addr, sizes: seq<nat>, hs: seq<Handle>, n: nat,
                              d': Device, script': seq<Reply>)
  {
    && n <= |hs| == |sizes| && Willing(script, n) && script' == After(script, n)
    && (forall i :: 0 <= i < n ==> CanMapNext(d, base, sizes, hs, i))
    && d' == Mapped(d, base, sizes, hs, n) && Vacant(d, base, sizes, n)
  }

  lemma MapGoesOn(d: Device, script: seq<Reply>, base: Addr, sizes: seq<nat>, hs: seq<Handle>, n: nat, d': Device, script': seq<Reply>)
    requires n < |hs| == |sizes| && MappedSoFar(d, script, base, sizes, hs, n, d', script')
    requires var a := base + Offset(sizes, n); ReplyAt(script', 0).status == 0 && CanMap(d', a, sizes[n], hs[n])
    ensures var next := d'.(maps := d'.maps[base + Offset(sizes, n) := Mapping(sizes[n], hs[n])]);
            MappedSoFar(d, script, base, sizes, hs, n + 1, next, After(script', 1))
  {
    AfterAfter(script, n, 0);
    AfterAfter(script, n, 1);
    assert CanMapNext(d, base, sizes, hs, n);
    MappedNext(d, base, sizes, hs, n);
  }

  lemma MappedNext(d: Device, base: Addr, sizes: seq<nat>, hs: seq<Handle>, n: nat)
    requires n < |hs| == |sizes|
    ensures var before := Mapped(d, base, sizes, hs, n);
            Mapped(d, base, sizes, hs, n + 1) == before.(maps := before.maps[base + Offset(sizes, n) := Mapping(sizes[n], hs[n])])
  {
  }

  lemma MapStops(d: Device, script: seq<Reply>, base: Addr, sizes: seq<nat>, hs: seq<Handle>, n: nat, d': Device, script': seq<Reply>)
    requires n < |hs| == |sizes| && MappedSoFar(d, script, base, sizes, hs, n, d', script')
    requires ReplyAt(script', 0).status != 0 || !CanMap(d', base + Offset(sizes, n), sizes[n], hs[n])
    ensures !MapsAll(d, script, base, sizes, hs)
    ensures MapStatus(d, script, base, sizes, hs, n) ==
            Status(ReplyAt(script', 0), CanMap(d', base + Offset(sizes, n), sizes[n], hs[n]))
  {
    AfterAfter(script, n, 0);
    assert ReplyAt(script, n).status != 0 || !CanMapNext(d, base, sizes, hs, n);
  }

  /** A row of unmap calls and a row of release calls: what they return, the device
      and the replies they leave. */
  ghost predicate TakenDownBy(d: Device, script: seq<Reply>, base: Addr, sizes: seq<nat>, hs: seq<Handle>, us: seq<int>, rs: seq<int>,
                              d': Device, script': seq<Reply>)
  {
    TakenDownParts(d, script, base, sizes, hs, us, rs, d', script') == true
  }

  ghost predicate TakenDownParts(d: Device, script: seq<Reply>, base: Addr, sizes: seq<nat>, hs: seq<Handle>, us: seq<int>, rs: seq<int>,
                                 d': Device, script': seq<Reply>)
  {
    && UnmapsBy(d, script, base, sizes, us) && ReleasesBy(d, After(script, |us|), hs, rs)
    && d' == TakenDown(d, base, sizes, hs, us, rs) && script' == After(script, |us| + |rs|)
  }

  lemma NothingTakenDown(d: Device, script: seq<Reply>, base: Addr, sizes: seq<nat>, hs: seq<Handle>)
    ensures TakenDownBy(d, script, base, sizes, hs, [], [], d, script)
  {
    assert d.maps - {} == d.maps && d.handles - {} == d.handles;
  }

  /** Unmapping leaves the handles alone, so the two rows of calls make one. */
  lemma BothRows(d: Device, script: seq<Reply>, base: Addr, sizes: seq<nat>, hs: seq<Handle>, us: seq<int>, rs: seq<int>,
                 mid: Device, rest: seq<Reply>, d': Device, script': seq<Reply>)
    requires UnmappedSoFar(d, script, base, sizes, us, mid, rest) && ReleasedSoFar(mid, rest, hs, rs, d', script')
    ensures TakenDownBy(d, script, base, sizes, hs, us, rs, d', script')
  {
    AfterAfter(script, |us|, |rs|);
    forall i | 0 <= i < |rs| ensures rs[i] == ReleaseStatus(d, rest, hs, rs, i) {
      assert rs[i] == ReleaseStatus(mid, rest, hs, rs, i);
    }
  }

  // ------------------------------------------------------- how create_and_map ends

  /** How the first loop ends: all handles created, or those before the failing one
      released again. */
  ghost predicate CreateFits(exit: Exit, d: Device, script: seq<Reply>, sizes: seq<nat>, hs: seq<Handle>, error: int,
                             d': Device, script': seq<Reply>)
  {
    match exit
    case Done => |hs| == |sizes| && CreatedSoFar(d, script, sizes, hs, d', script')
    case CreateFailed(rs) =>
      && |rs| == |hs| < |sizes| && hs == Values(script, |hs|) && Creates(d, script, |hs|) && !Creates(d, script, |sizes|)
      && error == CreateStatus(d, script, sizes, |hs|)
      && ReleasedSoFar(Created(d, sizes, hs, |hs|), After(script, |hs| + 1), hs, rs, d', script')
    case _ => false
  }

  /** How the second loop ends. */
  ghost predicate MapFits(exit: Exit, d: Device, script: seq<Reply>, base: Addr, sizes: seq<nat>, hs: seq<Handle>, error: int,
                          d': Device, script': seq<Reply>)
  {
    match exit
    case Done => MappedSoFar(d, script, base, sizes, hs, |hs|, d', script')
    case MapFailed(us, rs) =>
      && |us| < |rs| == |hs| == |sizes| && Vacant(d, base, sizes, |us|) && !MapsAll(d, script, base, sizes, hs)
      && error == MapStatus(d, script, base, sizes, hs, |us|)
      && TakenDownBy(Mapped(d, base, sizes, hs, |us|), After(script, |us| + 1), base, sizes, hs, us, rs, d', script')
    case _ => false
  }

  /** Which exit create_and_map takes, and the error it reports there. */
  ghost predicate ExitFits(exit: Exit, d: Device, script: seq<Reply>, base: Addr, sizes: seq<nat>, hs: seq<Handle>, error: int) {
    ExitParts(exit, d, script, base, sizes, hs, error) == true
  }

  ghost predicate ExitParts(exit: Exit, d: Device, script: seq<Reply>, base: Addr, sizes: seq<nat>, hs: seq<Handle>, error: int) {
    && |hs| <= |sizes| && hs == Values(script, |hs|)
    && match exit
       case CreateFailed(_) => !Creates(d, script, |sizes|) && Willing(script, |hs|) && error == CreateStatus(d, script, sizes, |hs|)
       case MapFailed(us, _) =>
         && |us| < |hs| == |sizes| && Creates(d, script, |sizes|)
         && !MapsAll(Created(d, sizes, hs, |hs|), After(script, |hs|), base, sizes, hs)
         && error == MapStatus(Created(d, sizes, hs, |hs|), After(script, |hs|), base, sizes, hs, |us|)
       case Stale => false
       case _ =>
         && |hs| == |sizes| && Creates(d, script, |sizes|)
         && MapsAll(Created(d, sizes, hs, |hs|), After(script, |hs|), base, sizes, hs)
         && GrantFits(exit, After(script, 2 * |hs|), error)
  }

  /** After the chunks: access is granted and the memory zeroed, or not. */
  predicate GrantFits(exit: Exit, script: seq<Reply>, error: int) {
    var access, zero := ReplyAt(script, 0).status, ReplyAt(script, 1).status;
    match exit
    case AccessFailed => access != 0 && error == access
    case ZeroFailed => access == 0 && zero != 0 && error == zero
    case _ => exit.Done? && access == 0 && zero == 0 && error == 0
  }

  ghost function MapStatus(d: Device, script: seq<Reply>, base: Addr, sizes: seq<nat>, hs: seq<Handle>, i: nat): int
    requires i < |hs| == |sizes|
  {
    Status(ReplyAt(script, i), CanMapNext(d, base, sizes, hs, i))
  }

  /** create_and_map gets through exactly when it builds. */
  lemma DoneIffBuilds(exit: Exit, d: Device, script: seq<Reply>, base: Addr, sizes: seq<nat>, hs: seq<Handle>, error: int)
    requires ExitFits(exit, d, script, base, sizes, hs, error)
    ensures exit.Done? <==> Builds(d, script, base, sizes)
    ensures exit.Done? ==> hs == Values(script, |sizes|)
  {
    AfterAfter(script, 2 * |sizes|, 0);
    AfterAfter(script, 2 * |sizes|, 1);
  }

  // -------------------------------------------------------------- a willing driver

  /** A driver that is willing builds whatever it has no reason to refuse. */
  lemma WillingDriverBuilds(d: Device, script: seq<Reply>, a: Addr, e: Entry)
    requires |e.hs| == |e.sizes| && CanBuild(d, a, e)
    requires Willing(script, 2 * |e.sizes| + 2) && Values(script, |e.sizes|) == e.hs
    ensures Builds(d, script, a, e.sizes)
  {
    var n := |e.sizes|;
    forall i | 0 <= i < n ensures ReplyAt(After(script, n), i).status == 0 {
      AfterAfter(script, n, i);
    }
    forall i | 0 <= i < n ensures CanMapNext(Created(d, e.sizes, e.hs, n), a, e.sizes, e.hs, i) {
      assert MapsNext(d, a, e.sizes, e.hs, i);
    }
  }

  /** Unmap call `i` may be granted, and the driver is willing. */
  ghost predicate UnmapAllowed(d: Device, script: seq<Reply>, a: Addr, e: Entry, us: seq<int>, i: nat)
    requires i < |us| <= |e.sizes| == |e.hs|
  {
    && UnmapsNext(d, a, e.sizes, e.hs, i) && ReplyAt(script, i).status == 0
    && us[i] == UnmapStatus(d, script, a, e.sizes, us, i)
  }

  lemma {:induction false} WillingUnmaps(d: Device, script: seq<Reply>, a: Addr, e: Entry, us: seq<int>, n: nat)
    requires n <= |us| <= |e.sizes| == |e.hs|
    requires forall i {:trigger UnmapAllowed(d, script, a, e, us, i)} :: 0 <= i < |us| ==> UnmapAllowed(d, script, a, e, us, i)
    ensures AllZero(us[..n])
    decreases n
  {
    if n > 0 {
      WillingUnmaps(d, script, a, e, us, n - 1);
      assert UnmapAllowed(d, script, a, e, us, n - 1);
      AllUnmapped(a, e.sizes, e.hs, us[..n - 1]);
      assert us[..n] == us[..n - 1] + [us[n - 1]];
    }
  }

  lemma {:induction false} WillingReleases(d: Device, script: seq<Reply>, e: Entry, rs: seq<int>, n: nat)
    requires |e.hs| == |e.sizes| && n <= |rs| <= |e.hs| && Willing(script, |rs|)
    requires forall i :: 0 <= i < |rs| ==> ReleasesNext(d, e.sizes, e.hs, i)
    requires forall i :: 0 <= i < |rs| ==> rs[i] == ReleaseStatus(d, script, e.hs, rs, i)
    ensures AllZero(rs[..n])
    decreases n
  {
    if n > 0 {
      WillingReleases(d, script, e, rs, n - 1);
      WillingRelease(d, script, e, rs, n - 1);
      assert rs[..n] == rs[..n - 1] + [rs[n - 1]];
    }
  }

  lemma WillingRelease(d: Device, script: seq<Reply>, e: Entry, rs: seq<int>, i: nat)
    requires |e.hs| == |e.sizes| && i < |rs| <= |e.hs| && AllZero(rs[..i]) && ReleasesNext(d, e.sizes, e.hs, i)
    requires rs[i] == ReleaseStatus(d, script, e.hs, rs, i) && ReplyAt(script, i).status == 0
    ensures rs[i] == 0
  {
    AllReleased(e.sizes, e.hs, rs[..i]);
  }

  /** A willing driver takes down whatever it has no reason to refuse. */
  lemma WillingDriverTakesDown(d: Device, script: seq<Reply>, a: Addr, e: Entry, us: seq<int>, rs: seq<int>)
    requires |us| == |rs| == |e.hs| == |e.sizes| && CanTakeDown(d, a, e)
    requires UnmapsBy(d, script, a, e.sizes, us) && ReleasesBy(d, After(script, |us|), e.hs, rs)
    requires Willing(script, 2 * |us|)
    ensures AllZero(us) && AllZero(rs)
  {
    forall i | 0 <= i < |us| ensures ReplyAt(After(script, |us|), i).status == 0 {
      AfterAfter(script, |us|, i);
    }
    forall i {:trigger UnmapAllowed(d, script, a, e, us, i)} | 0 <= i < |us| ensures UnmapAllowed(d, script, a, e, us, i) {
      assert UnmapsNext(d, a, e.sizes, e.hs, i);
    }
    WillingUnmaps(d, script, a, e, us, |us|);
    WillingReleases(d, After(script, |us|), e, rs, |rs|);
    assert us[..|us|] == us && rs[..|rs|] == rs;
  }
}
