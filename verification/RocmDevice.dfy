/** The part of the GPU virtual-memory driver that csrc/cumem_allocator.cpp
    relies on: reserved address ranges, physical handles, and mappings. */
module RocmDevice {

  import opened ChunkPlan

  type Addr = nat
  type Handle = nat

  datatype Mapping = Mapping(size: nat, handle: Handle)

  datatype Device = Device(reserved: map<Addr, nat>, handles: map<Handle, nat>, maps: map<Addr, Mapping>)

  predicate Apart(a: Addr, n: nat, b: Addr, m: nat) {
    a + n <= b || b + m <= a
  }

  // ------------------------------------- when a call may succeed, and effect

  predicate CanReserve(d: Device, a: Addr, n: nat) {
    n > 0 && a !in d.reserved && forall b :: b in d.reserved ==> Apart(a, n, b, d.reserved[b])
  }

  /** A range is freed whole, and only once nothing is mapped in it. */
  predicate CanFree(d: Device, a: Addr, n: nat) {
    a in d.reserved && d.reserved[a] == n && forall b :: b in d.maps ==> !(a <= b < a + n)
  }

  predicate CanMap(d: Device, a: Addr, n: nat, h: Handle) {
    n > 0 && h in d.handles && d.handles[h] == n && a !in d.maps
  }

  predicate CanUnmap(d: Device, a: Addr, n: nat) {
    a in d.maps && d.maps[a].size == n
  }

  function Reserved(d: Device, a: Addr, n: nat): Device {
    d.(reserved := d.reserved[a := n])
  }

  function Unreserved(d: Device, a: Addr): Device {
    d.(reserved := d.reserved - {a})
  }

  // ------------------------------------------------------------ chunk lists

  /** Where chunk `i` lies in the allocation. */
  function Offset(sizes: seq<nat>, i: nat): nat
    requires i <= |sizes|
  {
    Sum(sizes[..i])
  }

  lemma OffsetNext(sizes: seq<nat>, i: nat)
    requires i < |sizes|
    ensures Offset(sizes, i + 1) == Offset(sizes, i) + sizes[i]
  {
    SumSnoc(sizes, i);
  }

  predicate Positive(sizes: seq<nat>) {
    forall i :: 0 <= i < |sizes| ==> sizes[i] > 0
  }

  lemma {:induction false} OffsetGrows(sizes: seq<nat>, i: nat, j: nat)
    requires i <= j <= |sizes|
    ensures Offset(sizes, i) <= Offset(sizes, j)
    ensures Positive(sizes) && i < j ==> Offset(sizes, i) < Offset(sizes, j)
    decreases j
  {
    if i < j {
      OffsetGrows(sizes, i, j - 1);
      OffsetNext(sizes, j - 1);
    }
  }

  function ChunkHandles(sizes: seq<nat>, hs: seq<Handle>, n: nat): map<Handle, nat>
    requires n <= |sizes| && n <= |hs|
  {
    if n == 0 then map[] else ChunkHandles(sizes, hs, n - 1)[hs[n - 1] := sizes[n - 1]]
  }

  function ChunkMaps(base: Addr, sizes: seq<nat>, hs: seq<Handle>, n: nat): map<Addr, Mapping>
    requires n <= |sizes| && n <= |hs|
  {
    if n == 0 then map[]
    else ChunkMaps(base, sizes, hs, n - 1)[base + Offset(sizes, n - 1) := Mapping(sizes[n - 1], hs[n - 1])]
  }

  /** The device with the first `n` chunks created, and with them mapped. */
  function Created(d: Device, sizes: seq<nat>, hs: seq<Handle>, n: nat): Device
    requires n <= |sizes| && n <= |hs|
  {
    d.(handles := d.handles + ChunkHandles(sizes, hs, n))
  }

  function Mapped(d: Device, base: Addr, sizes: seq<nat>, hs: seq<Handle>, n: nat): Device
    requires n <= |sizes| && n <= |hs|
  {
    d.(maps := d.maps + ChunkMaps(base, sizes, hs, n))
  }

  /** The device with all chunks created and mapped. */
  function Full(d: Device, base: Addr, sizes: seq<nat>, hs: seq<Handle>): Device
    requires |hs| == |sizes|
  {
    Mapped(Created(d, sizes, hs, |hs|), base, sizes, hs, |hs|)
  }

  predicate Distinct(hs: seq<Handle>) {
    forall i, j :: 0 <= i < j < |hs| ==> hs[i] != hs[j]
  }

  /** Distinct handles that the device does not know yet. */
  ghost predicate Fresh(d: Device, hs: seq<Handle>) {
    (forall i :: 0 <= i < |hs| ==> hs[i] !in d.handles) && Distinct(hs)
  }

  lemma {:induction false} ChunkHandleKeys(sizes: seq<nat>, hs: seq<Handle>, n: nat, h: Handle)
    requires n <= |sizes| && n <= |hs|
    ensures h in ChunkHandles(sizes, hs, n) <==> exists i :: 0 <= i < n && hs[i] == h
  {
    if n > 0 {
      ChunkHandleKeys(sizes, hs, n - 1, h);
    }
  }

  lemma {:induction false} ChunkHandleAt(sizes: seq<nat>, hs: seq<Handle>, n: nat, i: nat)
    requires i < n <= |sizes| && n <= |hs| && Distinct(hs)
    ensures hs[i] in ChunkHandles(sizes, hs, n) && ChunkHandles(sizes, hs, n)[hs[i]] == sizes[i]
  {
    if i < n - 1 {
      ChunkHandleAt(sizes, hs, n - 1, i);
    }
  }

  lemma {:induction false} ChunkMapKeys(base: Addr, sizes: seq<nat>, hs: seq<Handle>, n: nat, a: Addr)
    requires n <= |sizes| && n <= |hs|
    ensures a in ChunkMaps(base, sizes, hs, n) <==> exists i :: 0 <= i < n && a == base + Offset(sizes, i)
  {
    if n > 0 {
      ChunkMapKeys(base, sizes, hs, n - 1, a);
    }
  }

  lemma {:induction false} ChunkMapAt(base: Addr, sizes: seq<nat>, hs: seq<Handle>, n: nat, i: nat)
    requires i < n <= |sizes| && n <= |hs| && Positive(sizes)
    ensures base + Offset(sizes, i) in ChunkMaps(base, sizes, hs, n)
    ensures ChunkMaps(base, sizes, hs, n)[base + Offset(sizes, i)] == Mapping(sizes[i], hs[i])
  {
    if i < n - 1 {
      ChunkMapAt(base, sizes, hs, n - 1, i);
      OffsetGrows(sizes, i, n - 1);
    }
  }

  // ------------------------------------------- taking chunks down, one by one

  /** The handles whose release, and the addresses whose unmapping, succeeded. */
  function ReleasedOf(hs: seq<Handle>, statuses: seq<int>): set<Handle>
    requires |statuses| <= |hs|
  {
    if statuses == [] then {}
    else
      var last := |statuses| - 1;
      ReleasedOf(hs, statuses[..last]) + if statuses[last] == 0 then {hs[last]} else {}
  }

  function UnmappedOf(base: Addr, sizes: seq<nat>, statuses: seq<int>): set<Addr>
    requires |statuses| <= |sizes|
  {
    if statuses == [] then {}
    else
      var last := |statuses| - 1;
      UnmappedOf(base, sizes, statuses[..last]) + if statuses[last] == 0 then {base + Offset(sizes, last)} else {}
  }

  predicate AllZero(statuses: seq<int>) {
    forall i :: 0 <= i < |statuses| ==> statuses[i] == 0
  }

  function FirstError(statuses: seq<int>): int {
    if statuses == [] then 0
    else
      var front := FirstError(statuses[..|statuses| - 1]);
      if front != 0 then front else statuses[|statuses| - 1]
  }

  /** The first error is the earliest failing status, or 0 if none failed. */
  lemma {:induction false} FirstErrorIsFirst(statuses: seq<int>)
    ensures FirstError(statuses) == 0 <==> AllZero(statuses)
    ensures FirstError(statuses) != 0 ==>
              exists i :: 0 <= i < |statuses| && statuses[i] == FirstError(statuses) && AllZero(statuses[..i])
  {
    if statuses != [] {
      var front := statuses[..|statuses| - 1];
      FirstErrorIsFirst(front);
      if i :| 0 <= i < |front| && front[i] == FirstError(front) && FirstError(front) != 0 && AllZero(front[..i]) {
        assert statuses[..i] == front[..i] && statuses[i] == front[i];
      } else {
        assert statuses[..|statuses| - 1] == front;
      }
    }
  }

  function TakenDown(d: Device, base: Addr, sizes: seq<nat>, hs: seq<Handle>, us: seq<int>, rs: seq<int>): Device
    requires |us| <= |sizes| && |rs| <= |hs|
  {
    d.(maps := d.maps - UnmappedOf(base, sizes, us), handles := d.handles - ReleasedOf(hs, rs))
  }

  lemma {:induction false} AllReleased(sizes: seq<nat>, hs: seq<Handle>, rs: seq<int>)
    requires |rs| <= |hs| && |rs| <= |sizes| && AllZero(rs)
    ensures ReleasedOf(hs, rs) == ChunkHandles(sizes, hs, |rs|).Keys
  {
    if rs != [] {
      AllReleased(sizes, hs, rs[..|rs| - 1]);
    }
  }

  lemma {:induction false} AllUnmapped(base: Addr, sizes: seq<nat>, hs: seq<Handle>, us: seq<int>)
    requires |us| <= |hs| && |us| <= |sizes| && AllZero(us)
    ensures UnmappedOf(base, sizes, us) == ChunkMaps(base, sizes, hs, |us|).Keys
  {
    if us != [] {
      AllUnmapped(base, sizes, hs, us[..|us| - 1]);
    }
  }

  /** No chunk of the list is mapped yet. */
  ghost predicate Vacant(d: Device, base: Addr, sizes: seq<nat>, n: nat)
    requires n <= |sizes|
  {
    forall i :: 0 <= i < n ==> base + Offset(sizes, i) !in d.maps
  }

  lemma AddThenRemove<K, V>(m: map<K, V>, added: map<K, V>)
    requires m.Keys !! added.Keys
    ensures (m + added) - added.Keys == m
  {
  }

  /** Taking down every chunk undoes creating and mapping them: the addresses
      unmapped are exactly the addresses mapped. */
  lemma TakeDownUndoes(d: Device, base: Addr, sizes: seq<nat>, hs: seq<Handle>, n: nat, us: seq<int>, rs: seq<int>)
    requires |hs| <= |sizes| && n <= |hs| && |us| == n && |rs| == |hs| && AllZero(us) && AllZero(rs)
    requires Fresh(d, hs) && Vacant(d, base, sizes, n)
    ensures TakenDown(Mapped(Created(d, sizes, hs, |hs|), base, sizes, hs, n), base, sizes, hs, us, rs) == d
  {
    AllReleased(sizes, hs, rs);
    AllUnmapped(base, sizes, hs, us);
    var handles, maps := ChunkHandles(sizes, hs, |hs|), ChunkMaps(base, sizes, hs, n);
    forall h | h in handles ensures h !in d.handles {
      ChunkHandleKeys(sizes, hs, |hs|, h);
    }
    forall a | a in maps ensures a !in d.maps {
      ChunkMapKeys(base, sizes, hs, n, a);
    }
    AddThenRemove(d.handles, handles);
    AddThenRemove(d.maps, maps);
  }
}
