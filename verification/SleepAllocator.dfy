/** The ROCm path of csrc/cumem_allocator.cpp: allocation, release, sleep and
    wake on top of a driver of which every call may fail. */
module SleepAllocator {

  import opened ChunkPlan
  import opened RocmDevice
  import opened AllocatorRuns
  import opened DriverReplies

  const NOT_SUPPORTED := 801

  lemma ReserveThenFree(d: Device, a: Addr, n: nat)
    requires CanReserve(d, a, n)
    ensures Unreserved(Reserved(d, a, n), a) == d
  {
    assert d.reserved[a := n] - {a} == d.reserved;
  }

  /** The device in which create_and_map leaves, started on `d` without a pending
      error. A failing create or map takes down what was built; a failing access
      or zeroing call does not. */
  ghost predicate LeftBy(exit: Exit, d: Device, base: Addr, sizes: seq<nat>, hs: seq<Handle>, d': Device) {
    LeftParts(exit, d, base, sizes, hs, d') == true
  }

  ghost predicate LeftParts(exit: Exit, d: Device, base: Addr, sizes: seq<nat>, hs: seq<Handle>, d': Device) {
    && |hs| <= |sizes| && Fresh(d, hs)
    && match exit
       case CreateFailed(rs) =>
         && |rs| == |hs| < |sizes|
         && d' == TakenDown(Created(d, sizes, hs, |hs|), base, sizes, hs, [], rs)
       case MapFailed(us, rs) =>
         && |rs| == |hs| == |sizes| && |us| < |sizes| && Vacant(d, base, sizes, |us|)
         && d' == TakenDown(Mapped(Created(d, sizes, hs, |hs|), base, sizes, hs, |us|), base, sizes, hs, us, rs)
       case Stale => false
       case _ => |hs| == |sizes| && d' == Full(d, base, sizes, hs)
  }

  predicate CleanedUp(exit: Exit) {
    match exit
    case CreateFailed(rs) => AllZero(rs)
    case MapFailed(us, rs) => AllZero(us) && AllZero(rs)
    case _ => false
  }

  /** A create or map failure at any chunk leaves no handle and no mapping, as
      long as the driver honours the clean-up calls. */
  lemma RolledBack(exit: Exit, d: Device, base: Addr, sizes: seq<nat>, hs: seq<Handle>, d': Device)
    requires LeftBy(exit, d, base, sizes, hs, d') && CleanedUp(exit)
    ensures d' == d
  {
    match exit
    case CreateFailed(rs) =>
      TakeDownUndoes(d, base, sizes, hs, 0, [], rs);
      assert Mapped(Created(d, sizes, hs, |hs|), base, sizes, hs, 0) == Created(d, sizes, hs, |hs|);
    case MapFailed(us, rs) =>
      TakeDownUndoes(d, base, sizes, hs, |us|, us, rs);
  }

  lemma NoErrorInEither(us: seq<int>, rs: seq<int>)
    requires AllZero(us + rs)
    ensures AllZero(us) && AllZero(rs)
  {
    forall i | 0 <= i < |us| ensures us[i] == 0 {
      assert (us + rs)[i] == us[i];
    }
    forall i | 0 <= i < |rs| ensures rs[i] == 0 {
      assert (us + rs)[|us| + i] == rs[i];
    }
  }

  /** Without a failing call, the chunks are all gone, and freeing and reserving
      the range again changes nothing. */
  lemma SleepIsEmptying(d: Device, a: Addr, e: Entry, us: seq<int>, rs: seq<int>)
    requires |us| == |rs| == |e.hs| == |e.sizes| && AllZero(us) && AllZero(rs)
    ensures var down := TakenDown(d, a, e.sizes, e.hs, us, rs);
            && down == Emptied(d, a, e)
            && (CanFree(down, a, e.size) ==> Reserved(Unreserved(down, a), a, e.size) == down)
  {
    AllReleased(e.sizes, e.hs, rs);
    AllUnmapped(a, e.sizes, e.hs, us);
    var down := TakenDown(d, a, e.sizes, e.hs, us, rs);
    if CanFree(down, a, e.size) {
      assert (down.reserved - {a})[a := e.size] == down.reserved;
    }
  }

  lemma FreeIsEmptying(d: Device, a: Addr, e: Entry, us: seq<int>, rs: seq<int>)
    requires |e.hs| == |e.sizes| && |us| == |rs| == (if e.awake then |e.hs| else 0) && AllZero(us) && AllZero(rs)
    ensures TakenDown(d, a, e.sizes, e.hs, us, rs) == if e.awake then Emptied(d, a, e) else d
  {
    if e.awake {
      SleepIsEmptying(d, a, e, us, rs);
    } else {
      assert d.maps - {} == d.maps && d.handles - {} == d.handles;
    }
  }

  /** The handle cells of `n` chunks once the first few are written. */
  function Cells(hs: seq<Handle>, n: nat): (cells: seq<Handle>)
    requires |hs| <= n
    ensures |cells| == n && hs <= cells && (|hs| == n ==> cells == hs)
  {
    hs + seq(n - |hs|, _ => 0)
  }

  /** With a chunk mapped at its start a range cannot be freed. */
  lemma FirstChunkBlocks(d: Device, a: Addr, size: nat, sizes: seq<nat>, hs: seq<Handle>)
    requires |hs| == |sizes| && sizes != [] && size > 0
    ensures !CanFree(Full(d, a, sizes, hs), a, size)
  {
    ChunkMapKeys(a, sizes, hs, |hs|, a);
    assert Offset(sizes, 0) == 0;
    assert a in Full(d, a, sizes, hs).maps;
  }

  /** A range reserved and all chunks built is the abstract malloc. */
  lemma DoneIsMalloc(s: State, a: Addr, size: nat, sizes: seq<nat>, hs: seq<Handle>, built: Device)
    requires CanReserve(s.dev, a, size) && Positive(sizes) && Sum(sizes) <= size
    requires LeftBy(Done, Reserved(s.dev, a, size), a, sizes, hs, built)
    ensures |hs| == |sizes| && Enabled(s, Malloc(a, size, sizes, hs))
    ensures Next(s, Malloc(a, size, sizes, hs)) == State(built, s.live[a := Entry(size, sizes, Cells(hs, |sizes|), true)])
  {
  }

  /** After an access or zeroing failure the first chunk blocks the range. */
  lemma StillMapped(exit: Exit, d: Device, a: Addr, size: nat, sizes: seq<nat>, hs: seq<Handle>, built: Device)
    requires LeftBy(exit, d, a, sizes, hs, built) && (exit.AccessFailed? || exit.ZeroFailed?) && sizes != [] && size > 0
    ensures !CanFree(built, a, size)
  {
    FirstChunkBlocks(d, a, size, sizes, hs);
  }

  /** The three stages of create_and_map, at each of which it may end. */
  lemma EndsCreating(exit: Exit, d: Device, script: seq<Reply>, base: Addr, sizes: seq<nat>, hs: seq<Handle>, error: int,
                     d': Device, script': seq<Reply>)
    requires CreateFits(exit, d, script, sizes, hs, error, d', script') && exit.CreateFailed?
    ensures ExitFits(exit, d, script, base, sizes, hs, error) && LeftBy(exit, d, base, sizes, hs, d')
  {
    assert Created(d, sizes, hs, |hs|).maps - {} == d.maps;
  }

  lemma EndsMapping(exit: Exit, d: Device, script: seq<Reply>, base: Addr, sizes: seq<nat>, hs: seq<Handle>, error: int,
                    created: Device, rest: seq<Reply>, d': Device, script': seq<Reply>)
    requires CreateFits(Done, d, script, sizes, hs, 0, created, rest)
    requires MapFits(exit, created, rest, base, sizes, hs, error, d', script') && exit.MapFailed?
    ensures ExitFits(exit, d, script, base, sizes, hs, error) && LeftBy(exit, d, base, sizes, hs, d')
  {
  }

  lemma EndsGranting(exit: Exit, d: Device, script: seq<Reply>, base: Addr, sizes: seq<nat>, hs: seq<Handle>, error: int,
                     created: Device, rest: seq<Reply>, mapped: Device, rest': seq<Reply>)
    requires CreateFits(Done, d, script, sizes, hs, 0, created, rest)
    requires MapFits(Done, created, rest, base, sizes, hs, 0, mapped, rest') && GrantFits(exit, rest', error)
    ensures ExitFits(exit, d, script, base, sizes, hs, error) && LeftBy(exit, d, base, sizes, hs, mapped)
    ensures rest' == After(script, 2 * |sizes|)
  {
    AfterAfter(script, |sizes|, |sizes|);
  }

  /** A willing driver puts an allocation to sleep: all chunks go, and the range is
      freed and handed out again. */
  lemma WillingDriverSleeps(s: State, script: seq<Reply>, a: Addr, us: seq<int>, rs: seq<int>, down: Device, rest: seq<Reply>)
    requires Enabled(s, Sleep(a)) && Permitted(s, Sleep(a))
    requires |us| == |rs| == |s.live[a].hs|
    requires TakenDownBy(s.dev, script, a, s.live[a].sizes, s.live[a].hs, us, rs, down, rest)
    requires Willing(script, 2 * |us| + 2) && ReplyAt(script, 2 * |us| + 1).value == a
    ensures AllZero(us) && AllZero(rs) && Rereserves(down, rest, a, s.live[a].size)
  {
    var e := s.live[a];
    WillingDriverTakesDown(s.dev, script, a, e, us, rs);
    SleepIsEmptying(s.dev, a, e, us, rs);
    AfterAfter(script, 2 * |us|, 0);
    AfterAfter(script, 2 * |us|, 1);
  }

  /** And frees one, asleep or awake. */
  lemma WillingDriverFrees(s: State, script: seq<Reply>, a: Addr, us: seq<int>, rs: seq<int>, down: Device, rest: seq<Reply>)
    requires Enabled(s, Free(a)) && Permitted(s, Free(a))
    requires |us| == |rs| == (if s.live[a].awake then |s.live[a].hs| else 0)
    requires TakenDownBy(s.dev, script, a, s.live[a].sizes, s.live[a].hs, us, rs, down, rest)
    requires Willing(script, 2 * |us| + 1)
    ensures AllZero(us) && AllZero(rs) && ReplyAt(rest, 0).status == 0 && CanFree(down, a, s.live[a].size)
  {
    var e := s.live[a];
    if e.awake {
      WillingDriverTakesDown(s.dev, script, a, e, us, rs);
    }
    FreeIsEmptying(s.dev, a, e, us, rs);
    AfterAfter(script, 2 * |us|, 0);
  }

  /** And builds the chunks of a new allocation in the range that it granted. */
  lemma WillingDriverAllocates(d: Device, replies: seq<Reply>, a: Addr, size: nat, sizes: seq<nat>)
    requires Sane(d) && CanReserve(d, a, size) && Positive(sizes) && Sum(sizes) <= size
    requires Willing(replies, 2 * |sizes| + 2) && Fresh(d, Values(replies, |sizes|))
    ensures Builds(Reserved(d, a, size), replies, a, sizes)
  {
    var e := Entry(size, sizes, Values(replies, |sizes|), true);
    RoomToReserve(d, a, e);
    BuildIsPermitted(Reserved(d, a, size), a, e);
    WillingDriverBuilds(Reserved(d, a, size), replies, a, e);
  }

  /** What the Python callback does: it is missing, it raises, or it records. */
  datatype Callback = Missing | Raising | Recording

  datatype Allocation = NoRange | Crashed | NotRecorded | Abandoned | Allocated

  class Allocator {
    var dev: Device
    var errorCode: int
    var table: map<Addr, Entry>
    var script: seq<Reply>

    constructor (dev: Device, script: seq<Reply>)
      ensures this.dev == dev && errorCode == 0 && table == map[] && this.script == script
    {
      this.dev, this.script, errorCode, table := dev, script, 0, map[];
    }

    // ------------------------------------------------------- driver calls

    method Ask() returns (r: Reply)
      modifies this`script
      ensures r == ReplyAt(old(script), 0) && script == After(old(script), 1)
    {
      if script == [] {
        r := Reply(1, 0);
      } else {
        r := script[0];
        script := script[1..];
      }
    }

    method MemAddressReserve(size: nat, alignment: nat) returns (status: int, a: Addr)
      modifies this`dev, this`script
      ensures status == 0 ==>
                CanReserve(old(dev), a, size) && dev == Reserved(old(dev), a, size) && (alignment > 0 ==> a % alignment == 0)
      ensures status != 0 ==> dev == old(dev)
      ensures script == After(old(script), 1)
      ensures status == Status(ReplyAt(old(script), 0), Grants(old(dev), ReplyAt(old(script), 0), size, alignment))
      ensures status == 0 ==> a == ReplyAt(old(script), 0).value
    {
      var r := Ask();
      if r.status == 0 && CanReserve(dev, r.value, size) && (alignment == 0 || r.value % alignment == 0) {
        dev := Reserved(dev, r.value, size);
        return 0, r.value;
      }
      return if r.status != 0 then r.status else 1, 0;
    }

    method MemAddressFree(a: Addr, size: nat) returns (status: int)
      modifies this`dev, this`script
      ensures status == 0 ==> CanFree(old(dev), a, size) && dev == Unreserved(old(dev), a)
      ensures status != 0 ==> dev == old(dev)
      ensures script == After(old(script), 1) && status == Status(ReplyAt(old(script), 0), CanFree(old(dev), a, size))
    {
      var r := Ask();
      if r.status == 0 && CanFree(dev, a, size) {
        dev := Unreserved(dev, a);
        return 0;
      }
      return if r.status != 0 then r.status else 1;
    }

    method MemCreate(size: nat) returns (status: int, h: Handle)
      modifies this`dev, this`script
      ensures status == 0 ==> h !in old(dev).handles && dev == old(dev).(handles := old(dev).handles[h := size])
      ensures status != 0 ==> dev == old(dev)
      ensures script == After(old(script), 1) && (status == 0 ==> h == ReplyAt(old(script), 0).value)
      ensures status == Status(ReplyAt(old(script), 0), ReplyAt(old(script), 0).value !in old(dev).handles)
    {
      var r := Ask();
      if r.status == 0 && r.value !in dev.handles {
        dev := dev.(handles := dev.handles[r.value := size]);
        return 0, r.value;
      }
      return if r.status != 0 then r.status else 1, 0;
    }

    method MemMap(a: Addr, size: nat, h: Handle) returns (status: int)
      modifies this`dev, this`script
      ensures status == 0 ==>
                CanMap(old(dev), a, size, h) && dev == old(dev).(maps := old(dev).maps[a := Mapping(size, h)])
      ensures status != 0 ==> dev == old(dev)
      ensures script == After(old(script), 1) && status == Status(ReplyAt(old(script), 0), CanMap(old(dev), a, size, h))
    {
      var r := Ask();
      if r.status == 0 && CanMap(dev, a, size, h) {
        dev := dev.(maps := dev.maps[a := Mapping(size, h)]);
        return 0;
      }
      return if r.status != 0 then r.status else 1;
    }

    method MemUnmap(a: Addr, size: nat) returns (status: int)
      modifies this`dev, this`script
      ensures status == 0 ==> CanUnmap(old(dev), a, size) && dev == old(dev).(maps := old(dev).maps - {a})
      ensures status != 0 ==> dev == old(dev)
      ensures script == After(old(script), 1) && status == Status(ReplyAt(old(script), 0), CanUnmap(old(dev), a, size))
    {
      var r := Ask();
      if r.status == 0 && CanUnmap(dev, a, size) {
        dev := dev.(maps := dev.maps - {a});
        return 0;
      }
      return if r.status != 0 then r.status else 1;
    }

    method MemRelease(h: Handle) returns (status: int)
      modifies this`dev, this`script
      ensures status == 0 ==> h in old(dev).handles && dev == old(dev).(handles := old(dev).handles - {h})
      ensures status != 0 ==> dev == old(dev)
      ensures script == After(old(script), 1) && status == Status(ReplyAt(old(script), 0), h in old(dev).handles)
    {
      var r := Ask();
      if r.status == 0 && h in dev.handles {
        dev := dev.(handles := dev.handles - {h});
        return 0;
      }
      return if r.status != 0 then r.status else 1;
    }

    /** CUDA_CHECK: a failing status sticks until an entry point resets it. */
    method Check(status: int)
      modifies this`errorCode
      ensures errorCode == if status != 0 then status else old(errorCode)
    {
      if status != 0 {
        errorCode := status;
      }
    }

    // ------------------------------------------------------------- reserve

    /** reserve_rocm_address: a second try without the alignment is only accepted
        if the address happens to be aligned. */
    method ReserveAddress(size: nat, alignment: nat) returns (status: int, a: Addr)
      modifies this`dev, this`script
      ensures status == 0 ==>
                CanReserve(old(dev), a, size) && dev == Reserved(old(dev), a, size) && (alignment > 0 ==> a % alignment == 0)
      ensures status != 0 ==>
                || dev == old(dev)
                || (alignment > 0 && a % alignment != 0 && CanReserve(old(dev), a, size) && dev == Reserved(old(dev), a, size))
      ensures status == 0 <==> Reserves(old(dev), old(script), size, alignment)
      ensures status == 0 ==> a == ReservedAt(old(dev), old(script), size, alignment)
      ensures script == After(old(script), ReserveCalls(old(dev), old(script), size, alignment))
    {
      AfterAfter(script, 1, 0);
      AfterAfter(script, 1, 1);
      AfterAfter(script, 2, 1);
      status, a := MemAddressReserve(size, alignment);
      if status == 0 || alignment == 0 {
        return;
      }
      status, a := MemAddressReserve(size, 0);
      if status != 0 || a % alignment == 0 {
        return;
      }
      ReserveThenFree(old(dev), a, size);
      var ignored := MemAddressFree(a, size);
      status := NOT_SUPPORTED;
    }

    // ------------------------------------------------------ taking chunks down

    method ReleaseAll(hs: seq<Handle>) returns (rs: seq<int>)
      modifies this`dev, this`script
      ensures |rs| == |hs| && ReleasedSoFar(old(dev), old(script), hs, rs, dev, script)
    {
      rs := [];
      for i := 0 to |hs|
        invariant |rs| == i && ReleasedSoFar(old(dev), old(script), hs, rs, dev, script)
      {
        ghost var d, replies := dev, script;
        var status := MemRelease(hs[i]);
        ReleaseGoesOn(old(dev), old(script), hs, rs, d, replies, status, dev);
        rs := rs + [status];
      }
    }

    method UnmapAll(base: Addr, sizes: seq<nat>, n: nat) returns (us: seq<int>)
      requires n <= |sizes|
      modifies this`dev, this`script
      ensures |us| == n && UnmappedSoFar(old(dev), old(script), base, sizes, us, dev, script)
    {
      us := [];
      var unmappedSize := 0;
      for i := 0 to n
        invariant |us| == i && unmappedSize == Offset(sizes, i)
        invariant UnmappedSoFar(old(dev), old(script), base, sizes, us, dev, script)
      {
        ghost var d, replies := dev, script;
        var status := MemUnmap(base + unmappedSize, sizes[i]);
        UnmapGoesOn(old(dev), old(script), base, sizes, us, d, replies, status, dev);
        OffsetNext(sizes, i);
        unmappedSize := unmappedSize + sizes[i];
        us := us + [status];
      }
    }

    /** unmap_and_release: one unmap and one release per chunk, whatever fails on
        the way; the first error in that order is the one reported. */
    method UnmapAndRelease(base: Addr, sizes: seq<nat>, hs: seq<Handle>) returns (us: seq<int>, rs: seq<int>)
      requires |sizes| == |hs|
      modifies this`dev, this`script, this`errorCode
      ensures |us| == |rs| == |hs|
      ensures errorCode == if FirstError(us + rs) != 0 then FirstError(us + rs) else old(errorCode)
      ensures TakenDownBy(old(dev), old(script), base, sizes, hs, us, rs, dev, script)
    {
      us := UnmapAll(base, sizes, |sizes|);
      ghost var mid, rest := dev, script;
      rs := ReleaseAll(hs);
      BothRows(old(dev), old(script), base, sizes, hs, us, rs, mid, rest, dev, script);
      ReportFirst(us + rs);
    }

    method ReportFirst(statuses: seq<int>)
      modifies this`errorCode
      ensures errorCode == if FirstError(statuses) != 0 then FirstError(statuses) else old(errorCode)
    {
      var firstError := 0;
      for i := 0 to |statuses|
        invariant firstError == FirstError(statuses[..i])
      {
        if statuses[i] != 0 && firstError == 0 {
          firstError := statuses[i];
        }
        assert statuses[..i + 1][..i] == statuses[..i];
      }
      assert statuses[..|statuses|] == statuses;
      Check(firstError);
    }

    // ------------------------------------------------------- building chunks up

    /** The first loop of create_and_map. An error that was pending when it starts
        stops it after one handle, which then belongs to nobody. */
    method CreateChunks(sizes: seq<nat>) returns (hs: seq<Handle>, exit: Exit)
      modifies this`dev, this`script, this`errorCode
      ensures old(errorCode) == 0 ==>
                CreateFits(exit, old(dev), old(script), sizes, hs, errorCode, dev, script) && (exit.Done? <==> errorCode == 0)
      ensures old(errorCode) != 0 ==> errorCode != 0 && |hs| <= |sizes| && exit == if sizes == [] then Done else Stale
      ensures old(errorCode) != 0 ==>
                || (hs == [] && dev == old(dev))
                || (|hs| == 1 && hs[0] !in old(dev).handles &&
                    dev == old(dev).(handles := old(dev).handles[hs[0] := sizes[0]]))
    {
      var pending := errorCode != 0;
      hs := [];
      for i := 0 to |sizes|
        invariant |hs| == i && CreatedSoFar(old(dev), old(script), sizes, hs, dev, script)
        invariant errorCode == old(errorCode) && (i > 0 ==> errorCode == 0)
      {
        ghost var d, replies := dev, script;
        var status, h := MemCreate(sizes[i]);
        Check(status);
        if errorCode != 0 {
          if pending {
            hs, exit := StaleCreate(hs, status, h);
            return;
          }
          CreateStops(old(dev), old(script), sizes, hs, d, replies);
          AfterAfter(old(script), i, 1);
          var rs := ReleaseAll(hs);
          exit := CreateFailed(rs);
          return;
        }
        CreateGoesOn(old(dev), old(script), sizes, hs, d, replies, h);
        hs := hs + [h];
      }
      exit := Done;
    }

    /** With an error pending the loop ends at its first chunk, having nothing to
        release. */
    method StaleCreate(hs: seq<Handle>, status: int, h: Handle) returns (hs': seq<Handle>, exit: Exit)
      requires hs == []
      modifies this`dev, this`script
      ensures dev == old(dev) && exit == Stale && hs' == if status == 0 then [h] else []
    {
      var rs := ReleaseAll(hs);
      assert dev.handles == old(dev).handles;
      hs', exit := if status == 0 then hs + [h] else hs, Stale;
    }

    /** The second loop: map each chunk behind the one before, or take all down. */
    method MapChunks(base: Addr, sizes: seq<nat>, hs: seq<Handle>) returns (exit: Exit)
      requires |hs| == |sizes| && (errorCode == 0 || sizes == [])
      modifies this`dev, this`script, this`errorCode
      ensures MapFits(exit, old(dev), old(script), base, sizes, hs, errorCode, dev, script)
      ensures exit.Done? ==> errorCode == old(errorCode)
      ensures exit.MapFailed? ==> errorCode != 0
    {
      var mappedSize := 0;
      for i := 0 to |sizes|
        invariant mappedSize == Offset(sizes, i) && errorCode == old(errorCode)
        invariant MappedSoFar(old(dev), old(script), base, sizes, hs, i, dev, script)
      {
        ghost var d, replies := dev, script;
        var status := MemMap(base + mappedSize, sizes[i], hs[i]);
        Check(status);
        if errorCode != 0 {
          MapStops(old(dev), old(script), base, sizes, hs, i, d, replies);
          exit := UndoMaps(old(dev), old(script), base, sizes, hs, i);
          return;
        }
        MapGoesOn(old(dev), old(script), base, sizes, hs, i, d, replies);
        OffsetNext(sizes, i);
        mappedSize := mappedSize + sizes[i];
      }
      exit := Done;
    }

    /** The clean-up after a failing map: all mapped chunks, then all handles. */
    method UndoMaps(ghost d: Device, ghost replies: seq<Reply>, base: Addr, sizes: seq<nat>, hs: seq<Handle>, n: nat) returns (exit: Exit)
      requires n < |hs| == |sizes| && dev == Mapped(d, base, sizes, hs, n) && Vacant(d, base, sizes, n)
      requires script == After(replies, n + 1) && !MapsAll(d, replies, base, sizes, hs)
      requires errorCode == MapStatus(d, replies, base, sizes, hs, n)
      modifies this`dev, this`script
      ensures exit.MapFailed? && MapFits(exit, d, replies, base, sizes, hs, errorCode, dev, script)
    {
      var us := UnmapAll(base, sizes, n);
      ghost var mid, rest := dev, script;
      var rs := ReleaseAll(hs);
      BothRows(old(dev), old(script), base, sizes, hs, us, rs, mid, rest, dev, script);
      exit := MapFailed(us, rs);
    }

    /** cuMemSetAccess and hipMemset change nothing that the model sees. */
    method SetAccess() returns (status: int)
      modifies this`script
      ensures status == ReplyAt(old(script), 0).status && script == After(old(script), 1)
    {
      var r := Ask();
      status := r.status;
    }

    method Zero() returns (status: int)
      modifies this`script
      ensures status == ReplyAt(old(script), 0).status && script == After(old(script), 1)
    {
      var r := Ask();
      status := r.status;
    }

    /** create_and_map: the device it leaves at each of its exits. */
    method CreateAndMap(base: Addr, sizes: seq<nat>) returns (hs: seq<Handle>, exit: Exit)
      modifies this`dev, this`script, this`errorCode
      ensures exit.Done? <==> errorCode == 0
      ensures |hs| <= |sizes| && (exit.Stale? <==> old(errorCode) != 0)
      ensures old(errorCode) == 0 ==> LeftBy(exit, old(dev), base, sizes, hs, dev)
      ensures old(errorCode) == 0 && CleanedUp(exit) ==> dev == old(dev)
      ensures old(errorCode) == 0 ==> ExitFits(exit, old(dev), old(script), base, sizes, hs, errorCode)
      ensures old(errorCode) == 0 ==> (exit.Done? <==> Builds(old(dev), old(script), base, sizes))
      ensures old(errorCode) == 0 && exit.Done? ==> hs == Values(old(script), |sizes|)
      ensures old(errorCode) != 0 ==>
                || (hs == [] && dev == old(dev))
                || (|hs| == 1 && hs[0] !in old(dev).handles &&
                    dev == old(dev).(handles := old(dev).handles[hs[0] := sizes[0]]))
    {
      var pending := errorCode != 0;
      ghost var d, replies := dev, script;
      hs, exit := CreateChunks(sizes);
      if !exit.Done? {
        if !pending {
          EndsCreating(exit, d, replies, base, sizes, hs, errorCode, dev, script);
        }
      } else {
        exit := MapAndGrant(pending, d, replies, base, sizes, hs);
      }
      if !pending {
        DoneIffBuilds(exit, d, replies, base, sizes, hs, errorCode);
        if CleanedUp(exit) {
          RolledBack(exit, d, base, sizes, hs, dev);
        }
      }
    }

    /** create_and_map from its second loop on. With an error pending it has no
        chunks to map. */
    method MapAndGrant(pending: bool, ghost d: Device, ghost replies: seq<Reply>, base: Addr, sizes: seq<nat>, hs: seq<Handle>)
      returns (exit: Exit)
      requires if pending then errorCode != 0 && hs == sizes == []
               else errorCode == 0 && CreateFits(Done, d, replies, sizes, hs, 0, dev, script)
      modifies this`dev, this`script, this`errorCode
      ensures exit.Done? <==> errorCode == 0
      ensures pending ==> exit.Stale? && dev == old(dev)
      ensures !pending ==> ExitFits(exit, d, replies, base, sizes, hs, errorCode) && LeftBy(exit, d, base, sizes, hs, dev)
    {
      ghost var created, rest := dev, script;
      exit := MapChunks(base, sizes, hs);
      if exit.Done? {
        ghost var mapped, rest' := dev, script;
        exit := GrantAndZero(pending);
        if pending {
          assert dev.maps == old(dev).maps + map[];
        } else {
          EndsGranting(exit, d, replies, base, sizes, hs, errorCode, created, rest, mapped, rest');
        }
      } else {
        EndsMapping(exit, d, replies, base, sizes, hs, errorCode, created, rest, dev, script);
      }
    }

    method GrantAndZero(pending: bool) returns (exit: Exit)
      requires pending <==> errorCode != 0
      modifies this`script, this`errorCode
      ensures exit.Done? <==> errorCode == 0
      ensures if pending then exit.Stale? else GrantFits(exit, old(script), errorCode)
      ensures exit.Done? ==> script == After(old(script), 2)
    {
      AfterAfter(script, 1, 0);
      AfterAfter(script, 1, 1);
      var status := SetAccess();
      Check(status);
      if errorCode != 0 {
        return if pending then Stale else AccessFailed;
      }
      status := Zero();
      Check(status);
      if errorCode != 0 {
        return ZeroFailed;
      }
      return Done;
    }

    // ------------------------------------------------------------ sleep, wake

    ghost predicate Valid()
      reads this
    {
      forall a :: a in table ==> |table[a].hs| == |table[a].sizes|
    }

    ghost function Now(): State
      reads this
    {
      State(dev, table)
    }

    /** After the chunks of a sleeping allocation are gone: free its range, which
        is what gives the memory back, and reserve the same address again. */
    method Rereserve(a: Addr, size: nat) returns (ghost other: Addr)
      requires errorCode == 0
      modifies this`dev, this`script, this`errorCode
      ensures errorCode == 0 ==>
                CanFree(old(dev), a, size) && dev == Reserved(Unreserved(old(dev), a), a, size)
      ensures errorCode != 0 ==>
                || dev == old(dev)
                || dev == Unreserved(old(dev), a)
                || (other != a && dev == Reserved(Unreserved(old(dev), a), other, size))
      ensures errorCode == 0 <==> Rereserves(old(dev), old(script), a, size)
      ensures errorCode == 0 ==> script == After(old(script), 2)
    {
      AfterAfter(script, 1, 0);
      AfterAfter(script, 1, 1);
      other := a;
      var status := MemAddressFree(a, size);
      Check(status);
      if errorCode == 0 {
        var reserved;
        status, reserved := ReserveAddress(size, 0);
        Check(status);
        if errorCode == 0 && reserved != a {
          other := reserved;
          ReserveThenFree(Unreserved(old(dev), a), reserved, size);
          var ignored := MemAddressFree(reserved, size);
          errorCode := 1;
        }
      }
    }

    /** One allocation put to sleep: python_unmap_and_release, and the flag that
        the Python side sets whether or not it raised. Success is the abstract
        step. A pending error costs the allocation its chunks but is then blamed
        on this call. */
    method PutToSleep(a: Addr)
      returns (ok: bool, us: seq<int>, rs: seq<int>, ghost other: Addr, ghost down: Device, ghost rest: seq<Reply>)
      requires Valid() && a in table
      modifies this
      ensures Valid() && errorCode == 0
      ensures table == old(table)[a := old(table)[a].(awake := false)]
      ensures |us| == |rs| == |old(table)[a].hs|
      ensures ok ==> old(errorCode) == 0 && AllZero(us) && AllZero(rs)
      ensures ok && old(table)[a].awake ==>
                Enabled(old(Now()), Sleep(a)) && Now() == Next(old(Now()), Sleep(a))
      ensures !ok ==>
                || dev == down
                || dev == Unreserved(down, a)
                || (other != a && dev == Reserved(Unreserved(down, a), other, old(table)[a].size))
      ensures old(errorCode) != 0 ==> !ok && dev == down
      ensures TakenDownBy(old(dev), old(script), a, old(table)[a].sizes, old(table)[a].hs, us, rs, down, rest)
      ensures ok <==> old(errorCode) == 0 && AllZero(us) && AllZero(rs) && Rereserves(down, rest, a, old(table)[a].size)
    {
      var e := table[a];
      ghost var d := dev;
      us, rs := UnmapAndRelease(a, e.sizes, e.hs);
      down, rest := dev, script;
      FirstErrorIsFirst(us + rs);
      other := a;
      ok := false;
      if errorCode == 0 {
        other := Rereserve(a, e.size);
        ok := errorCode == 0;
      }
      errorCode := 0;
      table := table[a := e.(awake := false)];
      if ok {
        assert AllZero(us) && AllZero(rs) by {
          NoErrorInEither(us, rs);
        }
        SleepIsEmptying(d, a, e, us, rs);
      }
    }

    /** One allocation woken up. On failure the handle cells hold whatever was
        created, and the allocation still counts as asleep. */
    method WakeUp(a: Addr) returns (ok: bool, hs: seq<Handle>, exit: Exit)
      requires Valid() && a in table
      modifies this
      ensures Valid() && errorCode == 0 && |hs| <= |old(table)[a].hs|
      ensures table == old(table)[a := old(table)[a].(hs := hs + old(table)[a].hs[|hs|..], awake := ok || old(table)[a].awake)]
      ensures ok <==> exit.Done?
      ensures exit.Stale? <==> old(errorCode) != 0
      ensures ok && !old(table)[a].awake ==>
                Enabled(old(Now()), Wake(a, hs)) && Now() == Next(old(Now()), Wake(a, hs))
      ensures old(errorCode) == 0 ==> LeftBy(exit, old(dev), a, old(table)[a].sizes, hs, dev)
      ensures CleanedUp(exit) ==> dev == old(dev)
      ensures ok <==> old(errorCode) == 0 && Builds(old(dev), old(script), a, old(table)[a].sizes)
      ensures ok ==> hs == Values(old(script), |old(table)[a].sizes|)
    {
      var e := table[a];
      hs, exit := CreateAndMap(a, e.sizes);
      ok := errorCode == 0;
      errorCode := 0;
      table := table[a := e.(hs := hs + e.hs[|hs|..], awake := ok || e.awake)];
      assert ok ==> hs + e.hs[|hs|..] == hs;
    }

    // ----------------------------------------------------------------- free

    /** The chunks of a record that is awake, if it has any. */
    method TakeDown(a: Addr, e: Entry) returns (us: seq<int>, rs: seq<int>)
      requires |e.hs| == |e.sizes|
      modifies this`dev, this`script, this`errorCode
      ensures |us| == |rs| == (if e.awake then |e.hs| else 0)
      ensures TakenDownBy(old(dev), old(script), a, e.sizes, e.hs, us, rs, dev, script)
      ensures errorCode == if FirstError(us + rs) != 0 then FirstError(us + rs) else old(errorCode)
    {
      us, rs := [], [];
      if e.awake && |e.hs| > 0 {
        us, rs := UnmapAndRelease(a, e.sizes, e.hs);
      } else {
        NothingTakenDown(dev, script, a, e.sizes, e.hs);
      }
    }

    /** my_free, given the size that the caller, not the record, says. */
    method Release(ptr: Addr, size: nat, callbackSet: bool)
      returns (us: seq<int>, rs: seq<int>, freed: bool, ghost down: Device, ghost rest: seq<Reply>)
      requires Valid()
      modifies this
      ensures Valid()
      ensures !callbackSet || ptr !in old(table) ==>
                !freed && dev == old(dev) && table == old(table) && errorCode == old(errorCode)
      ensures callbackSet && ptr in old(table) ==>
                var e := old(table)[ptr];
                && table == old(table) - {ptr} && |us| == |rs| == (if e.awake then |e.hs| else 0)
                && TakenDownBy(old(dev), old(script), ptr, e.sizes, e.hs, us, rs, down, rest)
                && (freed <==> ReplyAt(rest, 0).status == 0 && CanFree(down, ptr, size))
                && dev == (if freed then Unreserved(down, ptr) else down)
                && errorCode == if !freed then Status(ReplyAt(rest, 0), CanFree(down, ptr, size))
                                else if FirstError(us + rs) != 0 then FirstError(us + rs) else old(errorCode)
      ensures freed ==> ptr in old(dev).reserved && old(dev).reserved[ptr] == size
      ensures freed && AllZero(us) && AllZero(rs) ==>
                && Enabled(old(Now()), Free(ptr)) && Now() == Next(old(Now()), Free(ptr))
                && errorCode == old(errorCode)
    {
      us, rs, freed, down, rest := [], [], false, dev, script;
      if !callbackSet || ptr !in table {
        return;
      }
      var e := table[ptr];
      ghost var d := dev;
      table := table - {ptr};
      us, rs := TakeDown(ptr, e);
      down, rest := dev, script;
      var status := MemAddressFree(ptr, size);
      Check(status);
      freed := status == 0;
      FirstErrorIsFirst(us + rs);
      if AllZero(us) && AllZero(rs) {
        FreeIsEmptying(d, ptr, e, us, rs);
      }
    }

    // --------------------------------------------------------------- malloc

    method Granularity() returns (status: int, g: nat)
      modifies this`script
      ensures status == 0 ==> 0 < g < WRAP
      ensures status == Status(ReplyAt(old(script), 0), 0 < ReplyAt(old(script), 0).value < WRAP)
      ensures status == 0 ==> g == ReplyAt(old(script), 0).value
      ensures script == After(old(script), 1)
    {
      var r := Ask();
      if r.status == 0 && 0 < r.value < WRAP {
        return 0, r.value;
      }
      return if r.status != 0 then r.status else 1, 0;
    }

    /** The end of my_malloc, from the record on: build the chunks or give the
        range back. The record stays in either case. `built` is the device that
        create_and_map left, before the range is freed or not. */
    method RecordAndMap(a: Addr, size: nat, sizes: seq<nat>)
      returns (hs: seq<Handle>, exit: Exit, freed: bool, ghost built: Device, ghost rest: seq<Reply>)
      requires Valid() && errorCode == 0 && 0 < size
      modifies this
      ensures Valid() && |hs| <= |sizes| && (exit.Done? <==> errorCode == 0) && !exit.Stale?
      ensures table == old(table)[a := Entry(size, sizes, Cells(hs, |sizes|), true)]
      ensures LeftBy(exit, old(dev), a, sizes, hs, built) && (CleanedUp(exit) ==> built == old(dev))
      ensures dev == if freed then Unreserved(built, a) else built
      ensures freed <==> !exit.Done? && ReplyAt(rest, 0).status == 0 && CanFree(built, a, size)
      ensures exit.Done? <==> Builds(old(dev), old(script), a, sizes)
      ensures exit.Done? ==> hs == Values(old(script), |sizes|)
      ensures (exit.AccessFailed? || exit.ZeroFailed?) && sizes != [] ==> !freed
    {
      ghost var d := dev;
      hs, exit := BuildRecorded(a, size, sizes);
      built, rest, freed := dev, script, false;
      if errorCode != 0 {
        if sizes != [] && (exit.AccessFailed? || exit.ZeroFailed?) {
          StillMapped(exit, d, a, size, sizes, hs, built);
        }
        freed := GiveBack(a, size);
      }
    }

    /** The record, with cells that create_and_map fills in. */
    method BuildRecorded(a: Addr, size: nat, sizes: seq<nat>) returns (hs: seq<Handle>, exit: Exit)
      requires Valid() && errorCode == 0
      modifies this
      ensures Valid() && |hs| <= |sizes| && (exit.Done? <==> errorCode == 0) && !exit.Stale?
      ensures table == old(table)[a := Entry(size, sizes, Cells(hs, |sizes|), true)]
      ensures LeftBy(exit, old(dev), a, sizes, hs, dev) && (CleanedUp(exit) ==> dev == old(dev))
      ensures exit.Done? <==> Builds(old(dev), old(script), a, sizes)
      ensures exit.Done? ==> hs == Values(old(script), |sizes|)
    {
      table := table[a := Entry(size, sizes, Cells([], |sizes|), true)];
      hs, exit := CreateAndMap(a, sizes);
      table := table[a := Entry(size, sizes, Cells(hs, |sizes|), true)];
    }

    /** The range is freed if the driver agrees; its refusal is one more error. */
    method GiveBack(a: Addr, size: nat) returns (freed: bool)
      requires errorCode != 0
      modifies this`dev, this`script, this`errorCode
      ensures errorCode != 0
      ensures freed <==> ReplyAt(old(script), 0).status == 0 && CanFree(old(dev), a, size)
      ensures dev == if freed then Unreserved(old(dev), a) else old(dev)
    {
      var status := MemAddressFree(a, size);
      Check(status);
      freed := status == 0;
    }

    /** my_malloc once the range is reserved: `d` is the device before that. */
    method MapReserved(ghost d: Device, a: Addr, size: nat, sizes: seq<nat>)
      returns (hs: seq<Handle>, exit: Exit, freed: bool, ghost built: Device, ghost step: Step, ghost rest: seq<Reply>)
      requires Valid() && errorCode == 0 && CanReserve(d, a, size) && dev == Reserved(d, a, size)
      requires Positive(sizes) && Sum(sizes) <= size
      modifies this
      ensures Valid() && !exit.Stale? && (exit.Done? <==> errorCode == 0) && step == Malloc(a, size, sizes, hs)
      ensures exit.Done? ==> Enabled(State(d, old(table)), step) && Now() == Next(State(d, old(table)), step)
      ensures !exit.Done? ==>
                && a in table && table[a].size == size && table[a].sizes == sizes && table - {a} == old(table) - {a}
                && LeftBy(exit, Reserved(d, a, size), a, sizes, hs, built)
                && dev == if freed then Unreserved(built, a) else built
      ensures CleanedUp(exit) ==> dev == if freed then d else Reserved(d, a, size)
      ensures (exit.AccessFailed? || exit.ZeroFailed?) && sizes != [] ==> !freed
      ensures exit.Done? <==> Builds(Reserved(d, a, size), old(script), a, sizes)
      ensures freed <==> !exit.Done? && ReplyAt(rest, 0).status == 0 && CanFree(built, a, size)
    {
      ReserveThenFree(d, a, size);
      hs, exit, freed, built, rest := RecordAndMap(a, size, sizes);
      step := Malloc(a, size, sizes, hs);
      if exit.Done? {
        DoneIsMalloc(State(d, old(table)), a, size, sizes, hs, built);
      }
    }

    /** my_malloc up to the record. */
    method ReserveRange(requested: nat) returns (got: bool, a: Addr, g: nat)
      requires requested < WRAP
      modifies this`dev, this`script, this`errorCode
      ensures got ==>
                && old(errorCode) == 0 == errorCode && 0 < g < WRAP && 0 <= RoundUp(requested, g) < WRAP
                && CanReserve(old(dev), a, RoundUp(requested, g)) && a % g == 0
                && dev == Reserved(old(dev), a, RoundUp(requested, g))
      ensures !got ==> errorCode != 0
      ensures old(errorCode) != 0 ==> !got && dev == old(dev)
      ensures !got && dev != old(dev) ==>
                && 0 < g < WRAP && a % g != 0 && 0 <= RoundUp(requested, g)
                && dev == Reserved(old(dev), a, RoundUp(requested, g))
      ensures got <==> old(errorCode) == 0 && GetsRange(old(dev), old(script), requested)
      ensures got ==> g == ReplyAt(old(script), 0).value && a == RangeAt(old(dev), old(script), requested)
      ensures got ==> script == After(old(script), RangeCalls(old(dev), old(script), requested))
    {
      ghost var replies := script;
      var status;
      got, a := false, 0;
      status, g := Granularity();
      Check(status);
      if errorCode == 0 {
        RoundUpIff(requested, g);
        AfterAfter(replies, 1, ReserveCalls(dev, script, RoundUp(requested, g), g));
        status, a := ReserveAddress(RoundUp(requested, g), g);
        Check(status);
        got := errorCode == 0;
      }
    }

    /** my_malloc. Success is the abstract step, on an aligned address, for at
        least the requested size. Without success: a pending error changes
        nothing at all; a record that cannot be made leaves the range reserved
        and no error set; after that the device is the one create_and_map left,
        with the range freed or not. A create or map failure that was cleaned up
        leaves only a record of an address that is no longer held; an access or
        zeroing failure leaves everything built, as the range cannot be freed. */
    method Allocate(requested: nat, env: Setting, callback: Callback)
      returns (r: Allocation, a: Addr, g: nat, hs: seq<Handle>, exit: Exit, freed: bool, ghost built: Device, ghost step: Step,
               ghost rest: seq<Reply>)
      requires Valid() && requested < WRAP
      modifies this
      ensures Valid()
      ensures old(errorCode) != 0 ==> r == NoRange && dev == old(dev) && errorCode != 0
      ensures r == NoRange ==> table == old(table)
      ensures r == NoRange && dev != old(dev) ==>
                0 < g < WRAP && a % g != 0 && 0 <= RoundUp(requested, g) && dev == Reserved(old(dev), a, RoundUp(requested, g))
      ensures r != NoRange ==>
                && 0 < g < WRAP && 0 < RoundUp(requested, g) < WRAP && requested <= RoundUp(requested, g) && a % g == 0
                && CanReserve(old(dev), a, RoundUp(requested, g))
      ensures r == Crashed ==> BaseChunk(env) + g - 1 >= WRAP
      ensures r == NotRecorded ==>
                errorCode == 0 && table == old(table) && dev == Reserved(old(dev), a, RoundUp(requested, g))
      ensures r == Allocated ==>
                && errorCode == 0 && step.Malloc? && step.a == a && step.size == RoundUp(requested, g)
                && (Sum(step.sizes) == step.size <==> step.size + RoundUp(BaseChunk(env), g) - 1 < WRAP)
                && Enabled(old(Now()), step) && Now() == Next(old(Now()), step)
      ensures r == Abandoned ==>
                && errorCode != 0 && a in table && table[a].size == RoundUp(requested, g) && table - {a} == old(table) - {a}
                && LeftBy(exit, Reserved(old(dev), a, RoundUp(requested, g)), a, table[a].sizes, hs, built)
                && dev == if freed then Unreserved(built, a) else built
      ensures r == Abandoned && CleanedUp(exit) ==>
                dev == if freed then old(dev) else Reserved(old(dev), a, RoundUp(requested, g))
      ensures r == Abandoned && (exit.AccessFailed? || exit.ZeroFailed?) && table[a].sizes != [] ==> !freed
      ensures r == Abandoned ==> (freed <==> ReplyAt(rest, 0).status == 0 && CanFree(built, a, table[a].size))
      ensures r != NoRange <==> old(errorCode) == 0 && GetsRange(old(dev), old(script), requested)
      ensures r != NoRange ==> g == ReplyAt(old(script), 0).value && a == RangeAt(old(dev), old(script), requested)
      ensures r == Crashed <==> r != NoRange && BaseChunk(env) + g - 1 >= WRAP
      ensures r == NotRecorded <==> r != NoRange && r != Crashed && callback != Recording
      ensures r == Allocated <==>
                r != NoRange && r != Crashed && callback == Recording && Allocates(old(dev), old(script), requested, env)
    {
      hs, exit, freed, built, step, rest := [], Stale, false, dev, Free(0), script;
      var got;
      got, a, g := ReserveRange(requested);
      if !got {
        r := NoRange;
        return;
      }
      RoundUpIff(requested, g);
      RoundUpIff(BaseChunk(env), g);
      var plan := PlanChunks(requested, g, env);
      if plan.DivideByZero? {
        r := Crashed;
        return;
      }
      if callback != Recording {
        r := NotRecorded;
        return;
      }
      ghost var chunk := RoundUp(BaseChunk(env), g);
      ChunksFit(plan.size, chunk);
      ChunksCoverIff(plan.size, chunk);
      hs, exit, freed, built, step, rest := MapReserved(old(dev), a, plan.size, plan.sizes);
      r := if exit.Done? then Allocated else Abandoned;
    }
  }
}
