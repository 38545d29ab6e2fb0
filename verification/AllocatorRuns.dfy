/** Whole runs of the allocator of csrc/cumem_allocator.cpp (ROCm): every mix of
    allocating, putting to sleep, waking and freeing whose driver calls succeed. */
module AllocatorRuns {

  import opened ChunkPlan
  import opened RocmDevice
  import opened MapParts

  /** What the Python side keeps for an address: the aligned size, the chunk
      sizes and their handles. While it is asleep the handles mean nothing. */
  datatype Entry = Entry(size: nat, sizes: seq<nat>, hs: seq<Handle>, awake: bool)

  datatype State = State(dev: Device, live: map<Addr, Entry>)

  datatype Step =
    | Malloc(a: Addr, size: nat, sizes: seq<nat>, hs: seq<Handle>)
    | Sleep(a: Addr)
    | Wake(a: Addr, hs: seq<Handle>)
    | Free(a: Addr)

  ghost predicate WellFormed(e: Entry) {
    && |e.hs| == |e.sizes| && Positive(e.sizes) && Sum(e.sizes) <= e.size && 0 < e.size
    && (e.awake ==> Distinct(e.hs))
  }

  function HandlesOf(e: Entry): map<Handle, nat>
    requires |e.hs| == |e.sizes|
  {
    ChunkHandles(e.sizes, e.hs, |e.hs|)
  }

  function MapsOf(a: Addr, e: Entry): map<Addr, Mapping>
    requires |e.hs| == |e.sizes|
  {
    ChunkMaps(a, e.sizes, e.hs, |e.hs|)
  }

  /** All chunks of an entry created and mapped, or unmapped and released. */
  function Filled(d: Device, a: Addr, e: Entry): Device
    requires |e.hs| == |e.sizes|
  {
    Full(d, a, e.sizes, e.hs)
  }

  function Emptied(d: Device, a: Addr, e: Entry): Device
    requires |e.hs| == |e.sizes|
  {
    d.(maps := d.maps - MapsOf(a, e).Keys, handles := d.handles - HandlesOf(e).Keys)
  }

  /** What a step asks of the state, and of the driver's answers: an address range
      clear of every reserved one, and handles not in use. */
  ghost predicate Enabled(s: State, step: Step) {
    match step
    case Malloc(a, size, sizes, hs) =>
      CanReserve(s.dev, a, size) && WellFormed(Entry(size, sizes, hs, true)) && Fresh(s.dev, hs)
    case Sleep(a) => a in s.live && s.live[a].awake && |s.live[a].hs| == |s.live[a].sizes|
    case Wake(a, hs) => a in s.live && !s.live[a].awake && |hs| == |s.live[a].sizes| && Fresh(s.dev, hs)
    case Free(a) => a in s.live && |s.live[a].hs| == |s.live[a].sizes|
  }

  /** Sleep frees the range and reserves it again, which leaves the reservations
      as they were. */
  function Next(s: State, step: Step): State
    requires Enabled(s, step)
  {
    match step
    case Malloc(a, size, sizes, hs) =>
      var e := Entry(size, sizes, hs, true);
      State(Filled(Reserved(s.dev, a, size), a, e), s.live[a := e])
    case Sleep(a) =>
      var e := s.live[a];
      State(Emptied(s.dev, a, e), s.live[a := e.(awake := false)])
    case Wake(a, hs) =>
      var e := s.live[a].(hs := hs, awake := true);
      State(Filled(s.dev, a, e), s.live[a := e])
    case Free(a) =>
      var e := s.live[a];
      State(Unreserved(if e.awake then Emptied(s.dev, a, e) else s.dev, a), s.live - {a})
  }

  ghost predicate CanRun(s: State, steps: seq<Step>)
    decreases |steps|
  {
    steps == [] || (Enabled(s, steps[0]) && CanRun(Next(s, steps[0]), steps[1..]))
  }

  ghost function Run(s: State, steps: seq<Step>): State
    requires CanRun(s, steps)
    decreases |steps|
  {
    if steps == [] then s else Run(Next(s, steps[0]), steps[1..])
  }

  // -------------------------------------------------------------- invariant

  predicate Within(x: Addr, a: Addr, n: nat) {
    a <= x < a + n
  }

  /** The `n` bytes from `x` on, at least one, lie in the range. */
  predicate Inside(x: Addr, n: nat, a: Addr, size: nat) {
    0 < n && a <= x && x + n <= a + size
  }

  /** The whole mapping at `x` lies in a reserved range. */
  ghost predicate Housed(d: Device, x: Addr)
    requires x in d.maps
  {
    exists a :: a in d.reserved && Inside(x, d.maps[x].size, a, d.reserved[a])
  }

  /** Reserved ranges are disjoint and every mapping lies in one of them. */
  ghost predicate Sane(d: Device) {
    && (forall a :: a in d.reserved ==> d.reserved[a] > 0)
    && (forall a, b :: a in d.reserved && b in d.reserved && a != b ==> Apart(a, d.reserved[a], b, d.reserved[b]))
    && (forall x :: x in d.maps ==> Housed(d, x))
  }

  ghost predicate AllWellFormed(live: map<Addr, Entry>) {
    forall a :: a in live ==> WellFormed(live[a])
  }

  ghost function AwakeHandles(live: map<Addr, Entry>): map<Addr, map<Handle, nat>>
    requires AllWellFormed(live)
  {
    map a | a in live && live[a].awake :: HandlesOf(live[a])
  }

  ghost function AwakeMaps(live: map<Addr, Entry>): map<Addr, map<Addr, Mapping>>
    requires AllWellFormed(live)
  {
    map a | a in live && live[a].awake :: MapsOf(a, live[a])
  }

  /** Ranges: those of `d0` and one per live allocation. Handles and mappings:
      those of `d0` and those of each allocation that is awake. The comparison with
      `true` makes the first one proposition for those who only pass it on. */
  ghost predicate RangesInv(d0: Device, s: State) {
    RangesParts(d0, s) == true
  }

  ghost predicate RangesParts(d0: Device, s: State) {
    && Sane(d0) && Sane(s.dev)
    && s.dev.reserved.Keys == d0.reserved.Keys + s.live.Keys && d0.reserved.Keys !! s.live.Keys
    && (forall a :: a in d0.reserved ==> s.dev.reserved[a] == d0.reserved[a])
    && (forall a :: a in s.live ==> s.dev.reserved[a] == s.live[a].size)
  }

  ghost predicate HandlesInv(d0: Device, handles: map<Handle, nat>, live: map<Addr, Entry>) {
    AllWellFormed(live) && MadeOf(handles, d0.handles, AwakeHandles(live))
  }

  ghost predicate MapsInv(d0: Device, maps: map<Addr, Mapping>, live: map<Addr, Entry>) {
    AllWellFormed(live) && MadeOf(maps, d0.maps, AwakeMaps(live))
  }

  ghost predicate Inv(d0: Device, s: State) {
    RangesInv(d0, s) && HandlesInv(d0, s.dev.handles, s.live) && MapsInv(d0, s.dev.maps, s.live)
  }

  // ----------------------------------------------------- chunks of one entry

  /** Which chunk is mapped at `x`. */
  lemma ChunkMappedAt(a: Addr, e: Entry, x: Addr) returns (i: nat)
    requires WellFormed(e) && x in MapsOf(a, e)
    ensures i < |e.hs| && x == a + Offset(e.sizes, i) && MapsOf(a, e)[x] == Mapping(e.sizes[i], e.hs[i])
  {
    ChunkMapKeys(a, e.sizes, e.hs, |e.hs|, x);
    i :| 0 <= i < |e.hs| && x == a + Offset(e.sizes, i);
    ChunkMapAt(a, e.sizes, e.hs, |e.hs|, i);
  }

  lemma ChunksWithin(a: Addr, e: Entry, x: Addr)
    requires WellFormed(e) && x in MapsOf(a, e)
    ensures Inside(x, MapsOf(a, e)[x].size, a, e.size)
  {
    var i := ChunkMappedAt(a, e, x);
    OffsetNext(e.sizes, i);
    OffsetGrows(e.sizes, i + 1, |e.sizes|);
    assert e.sizes[..|e.sizes|] == e.sizes;
  }

  /** A range none of whose addresses is mapped has room for its chunks. */
  lemma RoomForMaps(d: Device, a: Addr, e: Entry)
    requires WellFormed(e) && forall x :: x in d.maps ==> !Within(x, a, e.size)
    ensures d.maps.Keys !! MapsOf(a, e).Keys
  {
    forall x | x in MapsOf(a, e) ensures x !in d.maps {
      ChunksWithin(a, e, x);
    }
  }

  lemma RoomForHandles(d: Device, e: Entry)
    requires WellFormed(e) && Fresh(d, e.hs)
    ensures d.handles.Keys !! HandlesOf(e).Keys
  {
    forall h | h in HandlesOf(e) ensures h !in d.handles {
      ChunkHandleKeys(e.sizes, e.hs, |e.hs|, h);
    }
  }

  // ---------------------------------------------- handles and mappings kept

  ghost predicate Asleep(live: map<Addr, Entry>, a: Addr) {
    a in live ==> !live[a].awake
  }

  /** The two tables agree but for `a`. */
  ghost predicate SameBut(live: map<Addr, Entry>, live': map<Addr, Entry>, a: Addr) {
    live - {a} == live' - {a}
  }

  lemma SameElsewhere(live: map<Addr, Entry>, live': map<Addr, Entry>, a: Addr, b: Addr)
    requires SameBut(live, live', a) && b != a
    ensures b in live <==> b in live'
    ensures b in live ==> live[b] == live'[b]
  {
    assert b in live <==> b in live - {a};
    assert b in live' <==> b in live' - {a};
    assert b in live ==> live[b] == (live - {a})[b];
  }

  lemma HandlesJoin(live: map<Addr, Entry>, a: Addr, e: Entry)
    requires AllWellFormed(live) && Asleep(live, a) && WellFormed(e) && e.awake
    ensures AllWellFormed(live[a := e])
    ensures AwakeHandles(live[a := e]) == AwakeHandles(live)[a := HandlesOf(e)]
  {
  }

  lemma MapsJoin(live: map<Addr, Entry>, a: Addr, e: Entry)
    requires AllWellFormed(live) && Asleep(live, a) && WellFormed(e) && e.awake
    ensures AllWellFormed(live[a := e])
    ensures AwakeMaps(live[a := e]) == AwakeMaps(live)[a := MapsOf(a, e)]
  {
  }

  lemma HandlesLeave(live: map<Addr, Entry>, live': map<Addr, Entry>, a: Addr)
    requires AllWellFormed(live) && AllWellFormed(live') && SameBut(live, live', a) && Asleep(live', a)
    ensures AwakeHandles(live') == AwakeHandles(live) - {a}
  {
    forall b | b != a
      ensures (b in live <==> b in live') && (b in live ==> live[b] == live'[b])
    {
      SameElsewhere(live, live', a, b);
    }
  }

  lemma MapsLeave(live: map<Addr, Entry>, live': map<Addr, Entry>, a: Addr)
    requires AllWellFormed(live) && AllWellFormed(live') && SameBut(live, live', a) && Asleep(live', a)
    ensures AwakeMaps(live') == AwakeMaps(live) - {a}
  {
    forall b | b != a
      ensures (b in live <==> b in live') && (b in live ==> live[b] == live'[b])
    {
      SameElsewhere(live, live', a, b);
    }
  }

  lemma FillHandles(d0: Device, handles: map<Handle, nat>, live: map<Addr, Entry>, a: Addr, e: Entry)
    requires HandlesInv(d0, handles, live) && Asleep(live, a) && WellFormed(e) && e.awake
    requires handles.Keys !! HandlesOf(e).Keys
    ensures HandlesInv(d0, handles + HandlesOf(e), live[a := e])
  {
    AddPart(handles, d0.handles, AwakeHandles(live), a, HandlesOf(e));
    HandlesJoin(live, a, e);
  }

  lemma FillMaps(d0: Device, maps: map<Addr, Mapping>, live: map<Addr, Entry>, a: Addr, e: Entry)
    requires MapsInv(d0, maps, live) && Asleep(live, a) && WellFormed(e) && e.awake
    requires maps.Keys !! MapsOf(a, e).Keys
    ensures MapsInv(d0, maps + MapsOf(a, e), live[a := e])
  {
    AddPart(maps, d0.maps, AwakeMaps(live), a, MapsOf(a, e));
    MapsJoin(live, a, e);
  }

  lemma EmptyBoth(d0: Device, d: Device, live: map<Addr, Entry>, a: Addr)
    requires HandlesInv(d0, d.handles, live) && MapsInv(d0, d.maps, live) && a in live && live[a].awake
    ensures HandlesInv(d0, Emptied(d, a, live[a]).handles, live[a := live[a].(awake := false)])
    ensures MapsInv(d0, Emptied(d, a, live[a]).maps, live[a := live[a].(awake := false)])
  {
    var live' := live[a := live[a].(awake := false)];
    assert SameBut(live, live', a);
    HandlesLeave(live, live', a);
    MapsLeave(live, live', a);
    DropPart(d.handles, d0.handles, AwakeHandles(live), a);
    DropPart(d.maps, d0.maps, AwakeMaps(live), a);
  }

  lemma AsleepOwnsNoChunk(live: map<Addr, Entry>, live': map<Addr, Entry>, a: Addr)
    requires AllWellFormed(live) && AllWellFormed(live') && SameBut(live, live', a) && Asleep(live, a) && Asleep(live', a)
    ensures AwakeHandles(live') == AwakeHandles(live) && AwakeMaps(live') == AwakeMaps(live)
  {
    HandlesLeave(live, live', a);
    MapsLeave(live, live', a);
  }

  /** Entries that are asleep own nothing: they may come and go. */
  lemma AsleepOwnsNothing(d0: Device, d: Device, live: map<Addr, Entry>, live': map<Addr, Entry>, a: Addr)
    requires HandlesInv(d0, d.handles, live) && MapsInv(d0, d.maps, live)
    requires AllWellFormed(live') && SameBut(live, live', a) && Asleep(live, a) && Asleep(live', a)
    ensures HandlesInv(d0, d.handles, live') && MapsInv(d0, d.maps, live')
  {
    AsleepOwnsNoChunk(live, live', a);
  }

  lemma AsleepJoins(d0: Device, d: Device, live: map<Addr, Entry>, a: Addr, e: Entry)
    requires HandlesInv(d0, d.handles, live) && MapsInv(d0, d.maps, live) && a !in live && WellFormed(e) && !e.awake
    ensures HandlesInv(d0, d.handles, live[a := e]) && MapsInv(d0, d.maps, live[a := e])
  {
    assert live - {a} == live[a := e] - {a};
    AsleepOwnsNothing(d0, d, live, live[a := e], a);
  }

  lemma AsleepLeaves(d0: Device, d: Device, live: map<Addr, Entry>, a: Addr)
    requires HandlesInv(d0, d.handles, live) && MapsInv(d0, d.maps, live) && Asleep(live, a)
    ensures HandlesInv(d0, d.handles, live - {a}) && MapsInv(d0, d.maps, live - {a})
  {
    assert live - {a} == live - {a} - {a};
    AsleepOwnsNothing(d0, d, live, live - {a}, a);
  }

  // --------------------------------------------------------- ranges kept

  lemma SaneAfterFill(d: Device, a: Addr, e: Entry)
    requires Sane(d) && WellFormed(e) && a in d.reserved && d.reserved[a] == e.size
    ensures Sane(Filled(d, a, e))
  {
    var d' := Filled(d, a, e);
    forall x | x in d'.maps ensures Housed(d', x) {
      if x in MapsOf(a, e) {
        ChunksWithin(a, e, x);
      } else {
        assert Housed(d, x);
      }
    }
  }

  lemma SaneAfterReserve(d: Device, a: Addr, n: nat)
    requires Sane(d) && CanReserve(d, a, n)
    ensures Sane(Reserved(d, a, n))
  {
    var d' := Reserved(d, a, n);
    forall x | x in d'.maps ensures Housed(d', x) {
      assert Housed(d, x);
      var b :| b in d.reserved && Inside(x, d.maps[x].size, b, d.reserved[b]);
      assert b in d'.reserved && Inside(x, d'.maps[x].size, b, d'.reserved[b]);
    }
  }

  /** No mapping lies in a range that can be reserved. */
  lemma RoomToReserve(d: Device, a: Addr, e: Entry)
    requires Sane(d) && CanReserve(d, a, e.size) && WellFormed(e)
    ensures d.maps.Keys !! MapsOf(a, e).Keys
  {
    forall x | x in d.maps ensures !Within(x, a, e.size) {
      assert Housed(d, x);
      var b :| b in d.reserved && Inside(x, d.maps[x].size, b, d.reserved[b]);
      assert Apart(a, e.size, b, d.reserved[b]);
    }
    RoomForMaps(d, a, e);
  }

  lemma SaneAfterEmpty(d: Device, a: Addr, e: Entry)
    requires Sane(d) && |e.hs| == |e.sizes|
    ensures Sane(Emptied(d, a, e))
  {
    var d' := Emptied(d, a, e);
    forall x | x in d'.maps ensures Housed(d', x) {
      assert Housed(d, x);
    }
  }

  lemma SaneAfterFree(d: Device, a: Addr, n: nat)
    requires Sane(d) && CanFree(d, a, n)
    ensures Sane(Unreserved(d, a))
  {
    var d' := Unreserved(d, a);
    forall x | x in d'.maps ensures Housed(d', x) {
      assert Housed(d, x);
      var b :| b in d.reserved && Inside(x, d.maps[x].size, b, d.reserved[b]);
      assert b in d'.reserved && Inside(x, d'.maps[x].size, b, d'.reserved[b]);
    }
  }

  lemma FillRanges(d0: Device, s: State, a: Addr, e: Entry)
    requires RangesInv(d0, s) && a in s.live && e.size == s.live[a].size && WellFormed(e)
    ensures RangesInv(d0, State(Filled(s.dev, a, e), s.live[a := e]))
  {
    SaneAfterFill(s.dev, a, e);
  }

  lemma EmptyRanges(d0: Device, s: State, a: Addr)
    requires RangesInv(d0, s) && a in s.live && |s.live[a].hs| == |s.live[a].sizes|
    ensures RangesInv(d0, State(Emptied(s.dev, a, s.live[a]), s.live[a := s.live[a].(awake := false)]))
  {
    SaneAfterEmpty(s.dev, a, s.live[a]);
  }

  lemma ReserveRanges(d0: Device, s: State, a: Addr, e: Entry)
    requires RangesInv(d0, s) && CanReserve(s.dev, a, e.size)
    ensures a !in s.live && RangesInv(d0, State(Reserved(s.dev, a, e.size), s.live[a := e]))
  {
    SaneAfterReserve(s.dev, a, e.size);
  }

  lemma FreeRanges(d0: Device, s: State, a: Addr)
    requires RangesInv(d0, s) && a in s.live && CanFree(s.dev, a, s.live[a].size)
    ensures RangesInv(d0, State(Unreserved(s.dev, a), s.live - {a}))
  {
    SaneAfterFree(s.dev, a, s.live[a].size);
  }

  // ---------------------------------------------------------- the four steps

  lemma FillKeepsInv(d0: Device, s: State, a: Addr, e: Entry)
    requires Inv(d0, s) && a in s.live && !s.live[a].awake && e.awake && WellFormed(e) && e.size == s.live[a].size
    requires s.dev.handles.Keys !! HandlesOf(e).Keys && s.dev.maps.Keys !! MapsOf(a, e).Keys
    ensures Inv(d0, State(Filled(s.dev, a, e), s.live[a := e]))
  {
    FillRanges(d0, s, a, e);
    FillHandles(d0, s.dev.handles, s.live, a, e);
    FillMaps(d0, s.dev.maps, s.live, a, e);
  }

  /** Reserving a range is like receiving an allocation that is asleep. */
  lemma ReserveKeepsInv(d0: Device, s: State, a: Addr, e: Entry)
    requires Inv(d0, s) && CanReserve(s.dev, a, e.size) && WellFormed(e) && !e.awake
    ensures a !in s.live && Inv(d0, State(Reserved(s.dev, a, e.size), s.live[a := e]))
  {
    ReserveRanges(d0, s, a, e);
    AsleepJoins(d0, s.dev, s.live, a, e);
  }

  lemma MallocKeepsInv(d0: Device, s: State, a: Addr, e: Entry)
    requires Inv(d0, s) && CanReserve(s.dev, a, e.size) && WellFormed(e) && e.awake && Fresh(s.dev, e.hs)
    ensures Inv(d0, State(Filled(Reserved(s.dev, a, e.size), a, e), s.live[a := e]))
  {
    var asleep := e.(awake := false);
    assert s.live[a := asleep][a := e] == s.live[a := e];
    RoomForHandles(s.dev, e);
    RoomToReserve(s.dev, a, e);
    ReserveKeepsInv(d0, s, a, asleep);
    FillKeepsInv(d0, State(Reserved(s.dev, a, e.size), s.live[a := asleep]), a, e);
  }

  /** Other ranges, of the start or of other allocations, are clear of `a`'s. */
  lemma OldMapAway(d0: Device, s: State, a: Addr, x: Addr)
    requires RangesInv(d0, s) && a in s.live && x in d0.maps
    ensures !Within(x, a, s.live[a].size)
  {
    assert Housed(d0, x);
    var b :| b in d0.reserved && Inside(x, d0.maps[x].size, b, d0.reserved[b]);
    assert Apart(a, s.dev.reserved[a], b, s.dev.reserved[b]);
  }

  lemma OtherChunkAway(d0: Device, s: State, a: Addr, b: Addr, x: Addr)
    requires RangesInv(d0, s) && a in s.live && b in s.live && a != b && WellFormed(s.live[b]) && x in MapsOf(b, s.live[b])
    ensures !Within(x, a, s.live[a].size)
  {
    ChunksWithin(b, s.live[b], x);
    assert Apart(a, s.dev.reserved[a], b, s.dev.reserved[b]);
  }

  lemma OwnerOfMapping(d0: Device, maps: map<Addr, Mapping>, live: map<Addr, Entry>, x: Addr) returns (b: Addr)
    requires MapsInv(d0, maps, live) && x in maps && x !in d0.maps
    ensures b in live && live[b].awake && WellFormed(live[b]) && x in MapsOf(b, live[b])
  {
    assert InSome(AwakeMaps(live), x);
    b :| InPart(AwakeMaps(live), b, x);
  }

  lemma OwnMapping(d0: Device, maps: map<Addr, Mapping>, live: map<Addr, Entry>, a: Addr, x: Addr)
    requires MapsInv(d0, maps, live) && a in live && live[a].awake && x in MapsOf(a, live[a])
    ensures x !in d0.maps && x in maps && maps[x] == MapsOf(a, live[a])[x]
  {
    assert InPart(AwakeMaps(live), a, x);
  }

  /** Nothing is mapped in the range of an allocation that is asleep. */
  lemma AsleepIsEmpty(d0: Device, s: State, a: Addr, x: Addr)
    requires Inv(d0, s) && a in s.live && !s.live[a].awake && x in s.dev.maps
    ensures !Within(x, a, s.live[a].size)
  {
    if x in d0.maps {
      OldMapAway(d0, s, a, x);
    } else {
      var b := OwnerOfMapping(d0, s.dev.maps, s.live, x);
      OtherChunkAway(d0, s, a, b, x);
    }
  }

  lemma WakeKeepsInv(d0: Device, s: State, a: Addr, e: Entry)
    requires Inv(d0, s) && a in s.live && !s.live[a].awake && e.awake && WellFormed(e) && e.size == s.live[a].size
    requires Fresh(s.dev, e.hs)
    ensures Inv(d0, State(Filled(s.dev, a, e), s.live[a := e]))
  {
    RoomToWake(d0, s, a, e);
    RoomForHandles(s.dev, e);
    FillKeepsInv(d0, s, a, e);
  }

  lemma RoomToWake(d0: Device, s: State, a: Addr, e: Entry)
    requires Inv(d0, s) && a in s.live && !s.live[a].awake && WellFormed(e) && e.size == s.live[a].size
    ensures s.dev.maps.Keys !! MapsOf(a, e).Keys
  {
    forall x | x in s.dev.maps ensures !Within(x, a, e.size) {
      AsleepIsEmpty(d0, s, a, x);
    }
    RoomForMaps(s.dev, a, e);
  }

  lemma SleepKeepsInv(d0: Device, s: State, a: Addr)
    requires Inv(d0, s) && a in s.live && s.live[a].awake
    ensures Inv(d0, State(Emptied(s.dev, a, s.live[a]), s.live[a := s.live[a].(awake := false)]))
  {
    EmptyRanges(d0, s, a);
    EmptyBoth(d0, s.dev, s.live, a);
  }

  /** The driver never has a reason to refuse to free the range of an allocation
      that is asleep. */
  lemma AsleepCanBeFreed(d0: Device, s: State, a: Addr)
    requires Inv(d0, s) && a in s.live && !s.live[a].awake
    ensures CanFree(s.dev, a, s.live[a].size)
  {
    forall x | x in s.dev.maps ensures !(a <= x < a + s.live[a].size) {
      AsleepIsEmpty(d0, s, a, x);
    }
  }

  lemma ReleaseRangeKeepsInv(d0: Device, s: State, a: Addr)
    requires Inv(d0, s) && a in s.live && !s.live[a].awake
    ensures Inv(d0, State(Unreserved(s.dev, a), s.live - {a}))
  {
    AsleepCanBeFreed(d0, s, a);
    FreeRanges(d0, s, a);
    AsleepLeaves(d0, s.dev, s.live, a);
  }

  lemma ReplaceThenDrop(live: map<Addr, Entry>, a: Addr, e: Entry)
    ensures live[a := e] - {a} == live - {a}
  {
  }

  lemma AfterSleep(d0: Device, s: State, a: Addr) returns (mid: State)
    requires Inv(d0, s) && a in s.live && s.live[a].awake
    ensures Inv(d0, mid) && mid.dev == Emptied(s.dev, a, s.live[a]) && mid.live - {a} == s.live - {a}
    ensures a in mid.live && !mid.live[a].awake && mid.live[a].size == s.live[a].size
  {
    SleepKeepsInv(d0, s, a);
    ReplaceThenDrop(s.live, a, s.live[a].(awake := false));
    mid := State(Emptied(s.dev, a, s.live[a]), s.live[a := s.live[a].(awake := false)]);
  }

  lemma FreeAwakeKeepsInv(d0: Device, s: State, a: Addr)
    requires Inv(d0, s) && a in s.live && s.live[a].awake
    ensures CanFree(Emptied(s.dev, a, s.live[a]), a, s.live[a].size)
    ensures Inv(d0, State(Unreserved(Emptied(s.dev, a, s.live[a]), a), s.live - {a}))
  {
    var mid := AfterSleep(d0, s, a);
    AsleepCanBeFreed(d0, mid, a);
    ReleaseRangeKeepsInv(d0, mid, a);
  }

  lemma StepKeepsInv(d0: Device, s: State, step: Step)
    requires Inv(d0, s) && Enabled(s, step)
    ensures Inv(d0, Next(s, step))
  {
    match step
    case Malloc(a, size, sizes, hs) => MallocKeepsInv(d0, s, a, Entry(size, sizes, hs, true));
    case Sleep(a) => SleepKeepsInv(d0, s, a);
    case Wake(a, hs) => WakeKeepsInv(d0, s, a, s.live[a].(hs := hs, awake := true));
    case Free(a) =>
      if s.live[a].awake {
        FreeAwakeKeepsInv(d0, s, a);
      } else {
        ReleaseRangeKeepsInv(d0, s, a);
      }
  }

  lemma {:induction false} RunKeepsInv(d0: Device, s: State, steps: seq<Step>)
    requires Inv(d0, s) && CanRun(s, steps)
    ensures Inv(d0, Run(s, steps))
    decreases |steps|
  {
    if steps != [] {
      StepKeepsInv(d0, s, steps[0]);
      RunKeepsInv(d0, Next(s, steps[0]), steps[1..]);
    }
  }

  lemma InvAtStart(d0: Device)
    requires Sane(d0)
    ensures Inv(d0, State(d0, map[]))
  {
  }

  // ------------------------------------------------ the driver refuses nothing

  /** With the chunks before it mapped, chunk `i` can be. */
  ghost predicate MapsNext(d: Device, a: Addr, sizes: seq<nat>, hs: seq<Handle>, i: nat)
    requires i < |hs| == |sizes|
  {
    CanMap(Mapped(Created(d, sizes, hs, |hs|), a, sizes, hs, i), a + Offset(sizes, i), sizes[i], hs[i])
  }

  /** With the chunks before it unmapped, chunk `i` can be. */
  ghost predicate UnmapsNext(d: Device, a: Addr, sizes: seq<nat>, hs: seq<Handle>, i: nat)
    requires i < |hs| == |sizes|
  {
    CanUnmap(d.(maps := d.maps - ChunkMaps(a, sizes, hs, i).Keys), a + Offset(sizes, i), sizes[i])
  }

  /** With the handles before it released, handle `i` is still there. */
  ghost predicate ReleasesNext(d: Device, sizes: seq<nat>, hs: seq<Handle>, i: nat)
    requires i < |hs| == |sizes|
  {
    hs[i] in d.handles - ChunkHandles(sizes, hs, i).Keys
  }

  ghost predicate CanBuild(d: Device, a: Addr, e: Entry)
    requires |e.hs| == |e.sizes|
  {
    Fresh(d, e.hs) && forall i :: 0 <= i < |e.hs| ==> MapsNext(d, a, e.sizes, e.hs, i)
  }

  ghost predicate CanTakeDown(d: Device, a: Addr, e: Entry)
    requires |e.hs| == |e.sizes|
  {
    && (forall i :: 0 <= i < |e.hs| ==> UnmapsNext(d, a, e.sizes, e.hs, i))
    && (forall i :: 0 <= i < |e.hs| ==> ReleasesNext(d, e.sizes, e.hs, i))
  }

  /** Every driver call of the step, one after the other, is one that the driver
      has no reason to refuse. */
  ghost predicate Permitted(s: State, step: Step)
    requires Enabled(s, step)
  {
    match step
    case Malloc(a, size, sizes, hs) =>
      CanReserve(s.dev, a, size) && CanBuild(Reserved(s.dev, a, size), a, Entry(size, sizes, hs, true))
    case Sleep(a) =>
      var e := s.live[a];
      var emptied := Emptied(s.dev, a, e);
      CanTakeDown(s.dev, a, e) && CanFree(emptied, a, e.size) && CanReserve(Unreserved(emptied, a), a, e.size)
    case Wake(a, hs) => CanBuild(s.dev, a, s.live[a].(hs := hs))
    case Free(a) =>
      var e := s.live[a];
      if e.awake then CanTakeDown(s.dev, a, e) && CanFree(Emptied(s.dev, a, e), a, e.size)
      else CanFree(s.dev, a, e.size)
  }

  ghost predicate AllPermitted(s: State, steps: seq<Step>)
    requires CanRun(s, steps)
    decreases |steps|
  {
    steps == [] || (Permitted(s, steps[0]) && AllPermitted(Next(s, steps[0]), steps[1..]))
  }

  /** Chunk `i` of an entry is mapped at an address that no chunk before it has. */
  lemma ChunkPlace(a: Addr, e: Entry, i: nat) returns (x: Addr)
    requires WellFormed(e) && i < |e.hs|
    ensures x == a + Offset(e.sizes, i) && x in MapsOf(a, e) && MapsOf(a, e)[x] == Mapping(e.sizes[i], e.hs[i])
    ensures x !in ChunkMaps(a, e.sizes, e.hs, i)
  {
    x := a + Offset(e.sizes, i);
    ChunkMapAt(a, e.sizes, e.hs, |e.hs|, i);
    LastChunkIsNew(a, e.sizes, e.hs, i + 1);
  }

  lemma MapIsPermitted(d: Device, a: Addr, e: Entry, i: nat)
    requires WellFormed(e) && Distinct(e.hs) && d.maps.Keys !! MapsOf(a, e).Keys && i < |e.hs|
    ensures MapsNext(d, a, e.sizes, e.hs, i)
  {
    var x := ChunkPlace(a, e, i);
    ChunkHandleAt(e.sizes, e.hs, |e.hs|, i);
  }

  lemma BuildIsPermitted(d: Device, a: Addr, e: Entry)
    requires WellFormed(e) && Fresh(d, e.hs) && d.maps.Keys !! MapsOf(a, e).Keys
    ensures CanBuild(d, a, e)
  {
    forall i | 0 <= i < |e.hs| ensures MapsNext(d, a, e.sizes, e.hs, i) {
      MapIsPermitted(d, a, e, i);
    }
  }

  lemma UnmapIsPermitted(d: Device, a: Addr, e: Entry, i: nat)
    requires WellFormed(e) && i < |e.hs| && forall x :: x in MapsOf(a, e) ==> x in d.maps && d.maps[x] == MapsOf(a, e)[x]
    ensures UnmapsNext(d, a, e.sizes, e.hs, i)
  {
    var x := ChunkPlace(a, e, i);
  }

  lemma ReleaseIsPermitted(d0: Device, d: Device, live: map<Addr, Entry>, a: Addr, i: nat)
    requires HandlesInv(d0, d.handles, live) && a in live && live[a].awake && i < |live[a].hs| == |live[a].sizes|
    ensures ReleasesNext(d, live[a].sizes, live[a].hs, i)
  {
    var e := live[a];
    ChunkHandleAt(e.sizes, e.hs, |e.hs|, i);
    ChunkHandleKeys(e.sizes, e.hs, i, e.hs[i]);
    assert InPart(AwakeHandles(live), a, e.hs[i]);
  }

  /** Under the invariant every chunk of an allocation that is awake is mapped and
      has its handle, so the driver can take all of them down. */
  lemma TakeDownIsPermitted(d0: Device, s: State, a: Addr)
    requires HandlesInv(d0, s.dev.handles, s.live) && MapsInv(d0, s.dev.maps, s.live) && a in s.live && s.live[a].awake
    ensures |s.live[a].hs| == |s.live[a].sizes| && CanTakeDown(s.dev, a, s.live[a])
  {
    var e := s.live[a];
    forall x | x in MapsOf(a, e) ensures x in s.dev.maps && s.dev.maps[x] == MapsOf(a, e)[x] {
      OwnMapping(d0, s.dev.maps, s.live, a, x);
    }
    forall i | 0 <= i < |e.hs| ensures UnmapsNext(s.dev, a, e.sizes, e.hs, i) {
      UnmapIsPermitted(s.dev, a, e, i);
    }
    forall i | 0 <= i < |e.hs| ensures ReleasesNext(s.dev, e.sizes, e.hs, i) {
      ReleaseIsPermitted(d0, s.dev, s.live, a, i);
    }
  }

  /** A range that was just freed can be reserved again. */
  lemma RangeIsStillFree(d: Device, a: Addr)
    requires Sane(d) && a in d.reserved
    ensures CanReserve(Unreserved(d, a), a, d.reserved[a])
  {
  }

  lemma SleepIsPermitted(d0: Device, s: State, a: Addr)
    requires Inv(d0, s) && a in s.live && s.live[a].awake
    ensures Permitted(s, Sleep(a))
  {
    TakeDownIsPermitted(d0, s, a);
    FreeAwakeKeepsInv(d0, s, a);
    EmptyRanges(d0, s, a);
    RangeIsStillFree(Emptied(s.dev, a, s.live[a]), a);
  }

  lemma StepIsPermitted(d0: Device, s: State, step: Step)
    requires Inv(d0, s) && Enabled(s, step)
    ensures Permitted(s, step)
  {
    match step
    case Malloc(a, size, sizes, hs) =>
      var e := Entry(size, sizes, hs, true);
      RoomToReserve(s.dev, a, e);
      BuildIsPermitted(Reserved(s.dev, a, size), a, e);
    case Sleep(a) => SleepIsPermitted(d0, s, a);
    case Wake(a, hs) =>
      var e := s.live[a].(hs := hs);
      RoomToWake(d0, s, a, e);
      BuildIsPermitted(s.dev, a, e);
    case Free(a) =>
      if s.live[a].awake {
        SleepIsPermitted(d0, s, a);
      } else {
        AsleepCanBeFreed(d0, s, a);
      }
  }

  /** No driver call of any run is one that the driver has a reason to refuse. */
  lemma {:induction false} RunIsPermitted(d0: Device, s: State, steps: seq<Step>)
    requires Inv(d0, s) && CanRun(s, steps)
    ensures AllPermitted(s, steps)
    decreases |steps|
  {
    if steps != [] {
      StepIsPermitted(d0, s, steps[0]);
      StepKeepsInv(d0, s, steps[0]);
      RunIsPermitted(d0, Next(s, steps[0]), steps[1..]);
    }
  }

  // ------------------------------------------------------------ mapped bytes

  function MappingSize(m: Mapping): nat {
    m.size
  }

  function AwakeSize(e: Entry): nat {
    if e.awake then Sum(e.sizes) else 0
  }

  ghost function MappedBytes(d: Device): nat {
    SumBy(d.maps, MappingSize)
  }

  ghost function AwakeBytes(live: map<Addr, Entry>): nat {
    SumBy(live, AwakeSize)
  }

  lemma {:induction false} ChunkBytes(maps: map<Addr, Mapping>, base: Addr, sizes: seq<nat>, hs: seq<Handle>, n: nat)
    requires n <= |sizes| && n <= |hs| && Positive(sizes) && maps.Keys !! ChunkMaps(base, sizes, hs, n).Keys
    ensures SumBy(maps + ChunkMaps(base, sizes, hs, n), MappingSize) == SumBy(maps, MappingSize) + Offset(sizes, n)
  {
    if n == 0 {
      assert maps + ChunkMaps(base, sizes, hs, 0) == maps;
    } else {
      var before := ChunkMaps(base, sizes, hs, n - 1);
      var key: Addr, chunk := base + Offset(sizes, n - 1), Mapping(sizes[n - 1], hs[n - 1]);
      ChunkBytes(maps, base, sizes, hs, n - 1);
      LastChunkIsNew(base, sizes, hs, n);
      var all := ChunkMaps(base, sizes, hs, n);
      assert all == before[key := chunk] && key in all;
      assert maps + all == (maps + before)[key := chunk];
      SumAdd(maps + before, MappingSize, key, chunk);
      OffsetNext(sizes, n - 1);
    }
  }

  lemma LastChunkIsNew(base: Addr, sizes: seq<nat>, hs: seq<Handle>, n: nat)
    requires 0 < n <= |sizes| && n <= |hs| && Positive(sizes)
    ensures base + Offset(sizes, n - 1) !in ChunkMaps(base, sizes, hs, n - 1)
  {
    var key := base + Offset(sizes, n - 1);
    ChunkMapKeys(base, sizes, hs, n - 1, key);
    forall i | 0 <= i < n - 1 ensures key != base + Offset(sizes, i) {
      OffsetGrows(sizes, i, n - 1);
    }
  }

  lemma FilledBytes(maps: map<Addr, Mapping>, a: Addr, e: Entry)
    requires WellFormed(e) && maps.Keys !! MapsOf(a, e).Keys
    ensures SumBy(maps + MapsOf(a, e), MappingSize) == SumBy(maps, MappingSize) + Sum(e.sizes)
  {
    ChunkBytes(maps, a, e.sizes, e.hs, |e.hs|);
    assert e.sizes[..|e.sizes|] == e.sizes;
  }

  lemma EmptiedBytes(d0: Device, s: State, a: Addr)
    requires Inv(d0, s) && a in s.live && s.live[a].awake
    ensures MappedBytes(Emptied(s.dev, a, s.live[a])) + Sum(s.live[a].sizes) == MappedBytes(s.dev)
  {
    var e := s.live[a];
    PartIsThere(s.dev.maps, d0.maps, AwakeMaps(s.live), a);
    assert AwakeMaps(s.live)[a] == MapsOf(a, e);
    FilledBytes(s.dev.maps - MapsOf(a, e).Keys, a, e);
  }

  /** What a step maps, or unmaps, in bytes: the chunks of its one allocation. */
  ghost function BytesMapped(s: State, step: Step): int
    requires Enabled(s, step)
  {
    match step
    case Malloc(_, _, sizes, _) => Sum(sizes)
    case Sleep(a) => 0 - Sum(s.live[a].sizes)
    case Wake(a, _) => Sum(s.live[a].sizes)
    case Free(a) => 0 - AwakeSize(s.live[a])
  }

  /** Each step changes the mapped bytes, and the bytes awake, by exactly those. */
  lemma StepKeepsBytes(d0: Device, s: State, step: Step)
    requires Inv(d0, s) && Enabled(s, step)
    ensures MappedBytes(Next(s, step).dev) == MappedBytes(s.dev) + BytesMapped(s, step)
    ensures AwakeBytes(Next(s, step).live) == AwakeBytes(s.live) + BytesMapped(s, step)
  {
    match step
    case Malloc(a, size, sizes, hs) =>
      var e := Entry(size, sizes, hs, true);
      RoomToReserve(s.dev, a, e);
      FilledBytes(s.dev.maps, a, e);
      ReserveRanges(d0, s, a, e);
      SumAdd(s.live, AwakeSize, a, e);
    case Sleep(a) =>
      EmptiedBytes(d0, s, a);
      SumReplace(s.live, AwakeSize, a, s.live[a].(awake := false));
    case Wake(a, hs) =>
      var e := s.live[a].(hs := hs, awake := true);
      RoomToWake(d0, s, a, e);
      FilledBytes(s.dev.maps, a, e);
      SumReplace(s.live, AwakeSize, a, e);
    case Free(a) =>
      SumRemove(s.live, AwakeSize, a);
      if s.live[a].awake {
        EmptiedBytes(d0, s, a);
      }
  }

  lemma {:induction false} RunKeepsBytes(d0: Device, s: State, steps: seq<Step>)
    requires Inv(d0, s) && CanRun(s, steps)
    ensures MappedBytes(Run(s, steps).dev) + AwakeBytes(s.live) == MappedBytes(s.dev) + AwakeBytes(Run(s, steps).live)
    decreases |steps|
  {
    if steps != [] {
      StepKeepsInv(d0, s, steps[0]);
      StepKeepsBytes(d0, s, steps[0]);
      RunKeepsBytes(d0, Next(s, steps[0]), steps[1..]);
    }
  }

  // ------------------------------------------------------------ main results

  ghost predicate Reachable(d0: Device, s: State) {
    Sane(d0) && exists steps :: CanRun(State(d0, map[]), steps) && Run(State(d0, map[]), steps) == s
  }

  lemma ReachableInv(d0: Device, s: State)
    requires Reachable(d0, s)
    ensures Inv(d0, s)
    ensures MappedBytes(s.dev) == MappedBytes(d0) + AwakeBytes(s.live)
  {
    var start := State(d0, map[]);
    var steps :| CanRun(start, steps) && Run(start, steps) == s;
    InvAtStart(d0);
    RunKeepsInv(d0, start, steps);
    RunKeepsBytes(d0, start, steps);
  }

  /** In every reachable state each live allocation has its own reserved range,
      clear of all others. */
  lemma LiveRangesApart(d0: Device, s: State, a: Addr, b: Addr)
    requires Reachable(d0, s) && a in s.live && b in s.dev.reserved && a != b
    ensures a in s.dev.reserved && s.dev.reserved[a] == s.live[a].size
    ensures Apart(a, s.live[a].size, b, s.dev.reserved[b])
  {
    ReachableInv(d0, s);
  }

  // ----------------------------------------------- mappings do not overlap

  ghost predicate MappingsApart(d: Device) {
    forall x, y :: x in d.maps && y in d.maps && x != y ==> Apart(x, d.maps[x].size, y, d.maps[y].size)
  }

  /** The chunks of one allocation lie one behind the other. */
  lemma ChunksApart(a: Addr, e: Entry, x: Addr, y: Addr)
    requires WellFormed(e) && x in MapsOf(a, e) && y in MapsOf(a, e) && x != y
    ensures Apart(x, MapsOf(a, e)[x].size, y, MapsOf(a, e)[y].size)
  {
    var i := ChunkMappedAt(a, e, x);
    var j := ChunkMappedAt(a, e, y);
    OffsetNext(e.sizes, i);
    OffsetNext(e.sizes, j);
    if i < j {
      OffsetGrows(e.sizes, i + 1, j);
    } else {
      OffsetGrows(e.sizes, j + 1, i);
    }
  }

  /** The range that a mapping lies in: one of the start, or of an allocation. */
  lemma HomeOfMapping(d0: Device, s: State, x: Addr) returns (home: Addr)
    requires Inv(d0, s) && x in s.dev.maps
    ensures home in s.dev.reserved && Inside(x, s.dev.maps[x].size, home, s.dev.reserved[home])
    ensures x in d0.maps ==> s.dev.maps[x] == d0.maps[x]
    ensures x !in d0.maps ==>
              && home in s.live && WellFormed(s.live[home]) && x in MapsOf(home, s.live[home])
              && s.dev.maps[x] == MapsOf(home, s.live[home])[x]
    ensures x in d0.maps ==> home in d0.reserved
  {
    if x in d0.maps {
      assert Housed(d0, x);
      home :| home in d0.reserved && Inside(x, d0.maps[x].size, home, d0.reserved[home]);
    } else {
      home := OwnerOfMapping(d0, s.dev.maps, s.live, x);
      ChunksWithin(home, s.live[home], x);
      OwnMapping(d0, s.dev.maps, s.live, home, x);
    }
  }

  lemma TwoMappingsApart(d0: Device, s: State, x: Addr, y: Addr)
    requires Inv(d0, s) && MappingsApart(d0) && x in s.dev.maps && y in s.dev.maps && x != y
    ensures Apart(x, s.dev.maps[x].size, y, s.dev.maps[y].size)
  {
    var a := HomeOfMapping(d0, s, x);
    var b := HomeOfMapping(d0, s, y);
    if a != b {
      assert Apart(a, s.dev.reserved[a], b, s.dev.reserved[b]);
    } else if x !in d0.maps {
      ChunksApart(a, s.live[a], x, y);
    }
  }

  /** In every reachable state the mapped intervals lie in reserved ranges and do
      not overlap, if those of the start do not. */
  lemma MappingsStayApart(d0: Device, s: State)
    requires Reachable(d0, s) && MappingsApart(d0)
    ensures MappingsApart(s.dev) && forall x :: x in s.dev.maps ==> Housed(s.dev, x)
  {
    ReachableInv(d0, s);
    forall x, y | x in s.dev.maps && y in s.dev.maps && x != y
      ensures Apart(x, s.dev.maps[x].size, y, s.dev.maps[y].size)
    {
      TwoMappingsApart(d0, s, x, y);
    }
  }

  function Interval(x: Addr, n: nat): (r: set<Addr>)
    ensures forall y :: y in r <==> Within(y, x, n)
    ensures |r| == n
  {
    if n == 0 then {} else Interval(x, n - 1) + {x + n - 1}
  }

  ghost predicate Covers(maps: map<Addr, Mapping>, x: Addr, y: Addr) {
    x in maps && Within(y, x, maps[x].size)
  }

  /** The addresses that are mapped. */
  ghost predicate AreMapped(maps: map<Addr, Mapping>, ys: set<Addr>) {
    forall y :: y in ys <==> exists x :: Covers(maps, x, y)
  }

  lemma OneMoreMapping(maps: map<Addr, Mapping>, x: Addr, ys: set<Addr>)
    requires x in maps && AreMapped(maps - {x}, ys)
    ensures AreMapped(maps, ys + Interval(x, maps[x].size))
  {
    var here := Interval(x, maps[x].size);
    forall y ensures y in ys + here <==> exists x' :: Covers(maps, x', y) {
      if x' :| Covers(maps - {x}, x', y) {
        assert Covers(maps, x', y);
      }
      if y in here {
        assert Covers(maps, x, y);
      }
      if x' :| Covers(maps, x', y) && x' != x {
        assert Covers(maps - {x}, x', y);
      }
    }
  }

  lemma NewAddresses(maps: map<Addr, Mapping>, x: Addr, ys: set<Addr>)
    requires x in maps && AreMapped(maps - {x}, ys)
    requires forall y :: y in maps && y != x ==> Apart(x, maps[x].size, y, maps[y].size)
    ensures ys !! Interval(x, maps[x].size)
  {
    forall y | y in ys ensures y !in Interval(x, maps[x].size) {
      var x' :| Covers(maps - {x}, x', y);
      assert Apart(x, maps[x].size, x', maps[x'].size);
    }
  }

  /** Mappings that do not overlap map as many addresses as they have bytes. */
  lemma {:induction false} BytesAreAddresses(maps: map<Addr, Mapping>) returns (ys: set<Addr>)
    requires forall x, y :: x in maps && y in maps && x != y ==> Apart(x, maps[x].size, y, maps[y].size)
    ensures AreMapped(maps, ys) && SumBy(maps, MappingSize) == |ys|
    decreases maps
  {
    if maps == map[] {
      ys := {};
    } else {
      var x :| x in maps;
      SumRemove(maps, MappingSize, x);
      var rest := BytesAreAddresses(maps - {x});
      OneMoreMapping(maps, x, rest);
      NewAddresses(maps, x, rest);
      ys := rest + Interval(x, maps[x].size);
    }
  }

  /** In every reachable state the mapped bytes count the mapped addresses. */
  lemma MappedBytesCountAddresses(d0: Device, s: State)
    requires Reachable(d0, s) && MappingsApart(d0)
    ensures exists ys: set<Addr> :: AreMapped(s.dev.maps, ys) && MappedBytes(s.dev) == |ys|
  {
    MappingsStayApart(d0, s);
    var ys := BytesAreAddresses(s.dev.maps);
  }

  // ------------------------------------------------ runs of tiling mallocs

  function AwakeAlignedSize(e: Entry): nat {
    if e.awake then e.size else 0
  }

  ghost predicate Tiled(live: map<Addr, Entry>) {
    forall a :: a in live ==> Sum(live[a].sizes) == live[a].size
  }

  /** The chunk plan of the malloc stayed within 64 bits. */
  ghost predicate TilesWhenMalloc(step: Step) {
    step.Malloc? ==> Sum(step.sizes) == step.size
  }

  /** The bytes of the allocations awake, when their chunks tile them. */
  lemma {:induction false} AwakeBytesTile(live: map<Addr, Entry>)
    requires Tiled(live)
    ensures AwakeBytes(live) == SumBy(live, AwakeAlignedSize)
    decreases live
  {
    if live != map[] {
      var k :| k in live;
      SumRemove(live, AwakeSize, k);
      SumRemove(live, AwakeAlignedSize, k);
      AwakeBytesTile(live - {k});
    }
  }

  /** A run whose mallocs tile keeps every live allocation tiled. */
  lemma {:induction false} TiledRun(s: State, steps: seq<Step>)
    requires CanRun(s, steps) && Tiled(s.live)
    requires forall i :: 0 <= i < |steps| ==> TilesWhenMalloc(steps[i])
    ensures Tiled(Run(s, steps).live)
    decreases |steps|
  {
    if steps != [] {
      assert TilesWhenMalloc(steps[0]);
      TiledRun(Next(s, steps[0]), steps[1..]);
    }
  }

  /** Over every run whose mallocs tile, the bytes mapped beyond those mapped at
      first are the sum of the aligned sizes of the allocations awake. */
  lemma MappedBytesAreAwakeSizes(d0: Device, steps: seq<Step>)
    requires Sane(d0) && CanRun(State(d0, map[]), steps)
    requires forall i :: 0 <= i < |steps| ==> TilesWhenMalloc(steps[i])
    ensures var s := Run(State(d0, map[]), steps);
            MappedBytes(s.dev) == MappedBytes(d0) + SumBy(s.live, AwakeAlignedSize)
  {
    ReachableInv(d0, Run(State(d0, map[]), steps));
    TiledRun(State(d0, map[]), steps);
    AwakeBytesTile(Run(State(d0, map[]), steps).live);
  }

  lemma StepKeepsEntry(d0: Device, s: State, step: Step, a: Addr)
    requires RangesInv(d0, s) && Enabled(s, step) && a in s.live && step != Free(a)
    ensures a in Next(s, step).live
    ensures Next(s, step).live[a].size == s.live[a].size && Next(s, step).live[a].sizes == s.live[a].sizes
  {
    if step.Malloc? {
      ReserveRanges(d0, s, step.a, Entry(step.size, [], [], false));
    }
  }

  lemma {:induction false} EntryKept(d0: Device, s: State, steps: seq<Step>, a: Addr)
    requires Inv(d0, s) && CanRun(s, steps) && a in s.live && Free(a) !in steps
    ensures a in Run(s, steps).live
    ensures Run(s, steps).live[a].size == s.live[a].size && Run(s, steps).live[a].sizes == s.live[a].sizes
    decreases |steps|
  {
    if steps != [] {
      StepKeepsInv(d0, s, steps[0]);
      StepKeepsEntry(d0, s, steps[0], a);
      EntryKept(d0, Next(s, steps[0]), steps[1..], a);
    }
  }

  /** An allocation that a run does not free keeps its address, its sizes and its
      reservation. */
  lemma BaseAddressKept(d0: Device, s: State, steps: seq<Step>, a: Addr)
    requires Inv(d0, s) && CanRun(s, steps) && a in s.live && Free(a) !in steps
    ensures a in Run(s, steps).live && a in Run(s, steps).dev.reserved
    ensures Run(s, steps).live[a].size == s.live[a].size && Run(s, steps).live[a].sizes == s.live[a].sizes
    ensures Run(s, steps).dev.reserved[a] == s.live[a].size
  {
    EntryKept(d0, s, steps, a);
    RunKeepsInv(d0, s, steps);
  }

  /** Once nothing is live the device is back to what it was. */
  lemma NothingLiveRestores(d0: Device, s: State)
    requires Inv(d0, s) && s.live == map[]
    ensures s.dev == d0
  {
    NoParts(s.dev.handles, d0.handles, AwakeHandles(s.live));
    NoParts(s.dev.maps, d0.maps, AwakeMaps(s.live));
    assert s.dev.reserved == d0.reserved;
  }

  function Frees(order: seq<Addr>): seq<Step> {
    if order == [] then [] else [Free(order[0])] + Frees(order[1..])
  }

  lemma RunFirst(s: State, step: Step, rest: seq<Step>)
    requires Enabled(s, step) && CanRun(Next(s, step), rest)
    ensures CanRun(s, [step] + rest) && Run(s, [step] + rest) == Run(Next(s, step), rest)
  {
    assert ([step] + rest)[1..] == rest;
  }

  /** The allocations that are live, each once. */
  ghost predicate Lists(order: seq<Addr>, live: map<Addr, Entry>) {
    && (forall a :: a in live <==> a in order)
    && (forall i, j :: 0 <= i < j < |order| ==> order[i] != order[j])
  }

  lemma ListsRest(order: seq<Addr>, live: map<Addr, Entry>)
    requires Lists(order, live) && order != []
    ensures order[0] in live && Lists(order[1..], live - {order[0]})
  {
    forall b ensures b in live - {order[0]} <==> b in order[1..] {
      assert order == [order[0]] + order[1..];
    }
  }

  /** From any reachable state, freeing the live allocations in any order, asleep
      or awake, asks nothing of the driver that it would refuse, and restores the
      device. */
  lemma FreeingAllRestores(d0: Device, s: State, order: seq<Addr>)
    requires Inv(d0, s) && Lists(order, s.live)
    ensures CanRun(s, Frees(order)) && AllPermitted(s, Frees(order)) && Run(s, Frees(order)) == State(d0, map[])
  {
    FreesRestore(d0, s, order);
    RunIsPermitted(d0, s, Frees(order));
  }

  lemma {:induction false} FreesRestore(d0: Device, s: State, order: seq<Addr>)
    requires Inv(d0, s) && Lists(order, s.live)
    ensures CanRun(s, Frees(order)) && Run(s, Frees(order)) == State(d0, map[])
    decreases |order|
  {
    if order == [] {
      assert s.live == map[];
      NothingLiveRestores(d0, s);
    } else {
      ListsRest(order, s.live);
      FreeIsEnabled(d0, s, order[0]);
      var s' := Next(s, Free(order[0]));
      FreesRestore(d0, s', order[1..]);
      RunFirst(s, Free(order[0]), Frees(order[1..]));
    }
  }

  lemma FreeIsEnabled(d0: Device, s: State, a: Addr)
    requires Inv(d0, s) && a in s.live
    ensures Enabled(s, Free(a)) && Inv(d0, Next(s, Free(a))) && Next(s, Free(a)).live == s.live - {a}
  {
    StepKeepsInv(d0, s, Free(a));
  }
}
