/** _store_block, _load_block and the batch loops of csrc/fs_io.cpp as they are
    written: sequences of system calls on a disk that answers each call from a
    script. Each call is shown to be a run of the step relation of BlockStore. */
module BlockStoreCalls {

  import opened BlockStore

  const EEXIST: nat := 17
  const ENOENT: nat := 2
  const EIO: nat := 5

  /** What one system call meets: an errno (0 for success), and how many bytes a
      read or write moves. */
  datatype Reply = Reply(errno: nat, count: nat)

  // --------------------------------------------- which replies make a call fail

  /** The errno of reply `k`; an exhausted script means success. */
  function Errno(script: seq<Reply>, k: nat): nat {
    if k < |script| then script[k].errno else 0
  }

  function Moved(script: seq<Reply>, k: nat, wanted: nat): nat {
    if k < |script| then script[k].count else wanted
  }

  function After(script: seq<Reply>, k: nat): seq<Reply> {
    if k <= |script| then script[k..] else []
  }

  /** The first of two errors, 0 if there is none. */
  function FirstOf(err: nat, next: nat): nat {
    if err != 0 then err else next
  }

  lemma AfterAfter(script: seq<Reply>, a: nat, b: nat)
    ensures After(After(script, a), b) == After(script, a + b)
    ensures Errno(After(script, a), b) == Errno(script, a + b)
    ensures forall wanted: nat :: Moved(After(script, a), b, wanted) == Moved(script, a + b, wanted)
  {
  }

  /** The store finds its block and is done at once. */
  predicate Found(fs: Fs, script: seq<Reply>, dest: Path) {
    Errno(script, 0) == 0 && dest in fs.names
  }

  /** What goes wrong first: the directories, or the exclusive open. */
  function OpenError(fs: Fs, script: seq<Reply>, tmp: Path): nat {
    FirstOf(Errno(script, 1), FirstOf(Errno(script, 2), if tmp in fs.names then EEXIST else 0))
  }

  /** The write fails or is short. */
  function WriteError(script: seq<Reply>, size: nat): nat {
    FirstOf(Errno(script, 0), if Moved(script, 0, size) < size then EIO else 0)
  }

  /** After the open: the write, the close, or the rename. */
  function PublishError(script: seq<Reply>, size: nat): nat {
    FirstOf(WriteError(script, size), FirstOf(Errno(script, 1), Errno(script, 2)))
  }

  function StoreError(fs: Fs, script: seq<Reply>, tmp: Path, dest: Path, size: nat): nat {
    if Found(fs, script, dest) then 0 else FirstOf(OpenError(fs, script, tmp), PublishError(After(script, 3), size))
  }

  /** How many calls are made up to the first failure, and the unlink after it. */
  function PublishCalls(script: seq<Reply>, size: nat): nat {
    if WriteError(script, size) != 0 then 2
    else if Errno(script, 1) != 0 then 3
    else if Errno(script, 2) != 0 then 4
    else 3
  }

  function StoreCalls(fs: Fs, script: seq<Reply>, tmp: Path, dest: Path, size: nat): nat {
    if Found(fs, script, dest) then 1
    else if Errno(script, 1) != 0 then 2
    else if OpenError(fs, script, tmp) != 0 then 3
    else 3 + PublishCalls(After(script, 3), size)
  }

  /** The temporary file stays behind exactly when it was opened, something failed
      after that, and its unlink, the last call, failed too. */
  predicate LeavesTemp(fs: Fs, script: seq<Reply>, tmp: Path, dest: Path, size: nat) {
    && !Found(fs, script, dest) && OpenError(fs, script, tmp) == 0 && PublishError(After(script, 3), size) != 0
    && Errno(script, StoreCalls(fs, script, tmp, dest, size) - 1) != 0
  }

  /** A store succeeds exactly when its block is there, or no call that it makes
      fails, the temporary name is free and all bytes are written. */
  lemma StoresIff(fs: Fs, script: seq<Reply>, tmp: Path, dest: Path, size: nat)
    ensures StoreError(fs, script, tmp, dest, size) == 0 <==>
            || (Errno(script, 0) == 0 && dest in fs.names)
            || (&& tmp !in fs.names && (forall k :: 1 <= k <= 5 ==> Errno(script, k) == 0)
                && (|script| <= 3 || script[3].count >= size))
  {
    AfterAfter(script, 3, 0);
    AfterAfter(script, 3, 1);
    AfterAfter(script, 3, 2);
    assert Errno(script, 1) == Errno(script, 2) == Errno(script, 3) == Errno(script, 4) == Errno(script, 5) == 0 ==>
        forall k :: 1 <= k <= 5 ==> Errno(script, k) == 0;
  }

  /** A load fails to open, reads too little, or fails to close. */
  function ReadError(fs: Fs, script: seq<Reply>, source: Path, size: nat): nat {
    FirstOf(Errno(script, 1), if Moved(script, 1, size) < size || Held(fs, source) < size then EIO else 0)
  }

  function MissingError(fs: Fs, script: seq<Reply>, source: Path): nat {
    FirstOf(Errno(script, 0), if source !in fs.names then ENOENT else 0)
  }

  function LoadError(fs: Fs, script: seq<Reply>, source: Path, size: nat): nat {
    FirstOf(MissingError(fs, script, source), FirstOf(ReadError(fs, script, source, size), Errno(script, 2)))
  }

  function LoadCalls(fs: Fs, script: seq<Reply>, source: Path, size: nat): nat {
    if MissingError(fs, script, source) != 0 then 2
    else if ReadError(fs, script, source, size) != 0 then 3
    else if Errno(script, 2) != 0 then 4
    else 3
  }

  /** A load succeeds exactly when the block is there with enough bytes, all of
      them are read, and no call fails. */
  lemma LoadsIff(fs: Fs, script: seq<Reply>, source: Path, size: nat)
    ensures LoadError(fs, script, source, size) == 0 <==>
            && source in fs.names && size <= Held(fs, source)
            && (forall k :: 0 <= k <= 2 ==> Errno(script, k) == 0) && (|script| <= 1 || script[1].count >= size)
  {
    assert Errno(script, 0) == Errno(script, 1) == Errno(script, 2) == 0 ==>
        forall k :: 0 <= k <= 2 ==> Errno(script, k) == 0;
  }

  /** How many bytes are under the name. */
  function Held(fs: Fs, p: Path): nat {
    if p in fs.names && fs.names[p] in fs.data then |fs.data[fs.names[p]]| else 0
  }

  /** Every reply is a success that moves at least `size` bytes. */
  predicate Healthy(script: seq<Reply>, size: nat) {
    forall k :: 0 <= k < |script| ==> script[k].errno == 0 && script[k].count >= size
  }

  lemma HealthyStore(fs: Fs, script: seq<Reply>, tmp: Path, dest: Path, size: nat)
    requires Healthy(script, size) && tmp !in fs.names
    ensures StoreError(fs, script, tmp, dest, size) == 0
  {
    StoresIff(fs, script, tmp, dest, size);
  }

  lemma HealthyLoad(fs: Fs, script: seq<Reply>, source: Path, size: nat)
    requires Healthy(script, size) && source in fs.names && size <= Held(fs, source)
    ensures LoadError(fs, script, source, size) == 0
  {
    LoadsIff(fs, script, source, size);
  }

  // ------------------------------------------------------------------- traces

  ghost predicate StoreTrace(trace: seq<(Fs, Storer)>)
  {
    && |trace| > 0
    && forall k :: 0 <= k < |trace| - 1 ==>
         StorerStep(trace[k].0, trace[k].1, trace[k + 1].0, trace[k + 1].1)
  }

  /** The trace with one more step. */
  ghost function Then(trace: seq<(Fs, Storer)>, fs: Fs, s: Storer): (longer: seq<(Fs, Storer)>)
    requires StoreTrace(trace) && StorerStep(trace[|trace| - 1].0, trace[|trace| - 1].1, fs, s)
    ensures StoreTrace(longer) && trace <= longer && longer[|longer| - 1] == (fs, s)
  {
    trace + [(fs, s)]
  }

  ghost predicate LoadTrace(trace: seq<(Fs, Loader)>)
  {
    && |trace| > 0
    && forall k :: 0 <= k < |trace| - 1 ==>
         LoaderStep(trace[k].0, trace[k].1, trace[k + 1].0, trace[k + 1].1)
  }

  ghost function ThenLoad(trace: seq<(Fs, Loader)>, fs: Fs, l: Loader): (longer: seq<(Fs, Loader)>)
    requires LoadTrace(trace) && LoaderStep(trace[|trace| - 1].0, trace[|trace| - 1].1, fs, l)
    ensures LoadTrace(longer) && trace <= longer && longer[|longer| - 1] == (fs, l)
  {
    trace + [(fs, l)]
  }

  /** `fs'` differs from `fs` by at most the names `touched`; no old file changed. */
  ghost predicate ChangesOnly(fs: Fs, fs': Fs, touched: set<Path>)
  {
    && (forall p :: p !in touched ==> (p in fs.names <==> p in fs'.names))
    && (forall p :: p !in touched && p in fs.names ==> fs'.names[p] == fs.names[p])
    && (forall h :: h in fs.data ==> h in fs'.data && fs'.data[h] == fs.data[h])
  }

  class Disk {
    var fs: Fs
    var nextInode: Inode
    var script: seq<Reply>

    ghost predicate Valid()
      reads this
    {
      && (forall h :: h in fs.data ==> h < nextInode)
      && (forall p :: p in fs.names ==> fs.names[p] in fs.data)
    }

    constructor (fs: Fs, nextInode: Inode, script: seq<Reply>)
      requires forall h :: h in fs.data ==> h < nextInode
      requires forall p :: p in fs.names ==> fs.names[p] in fs.data
      ensures Valid() && this.fs == fs && this.script == script
    {
      this.fs, this.nextInode, this.script := fs, nextInode, script;
    }

    /** The next scripted reply; an exhausted script means success. */
    method Ask(wanted: nat) returns (r: Reply)
      modifies this`script
      ensures r == Reply(Errno(old(script), 0), Moved(old(script), 0, wanted)) && script == After(old(script), 1)
    {
      if script == [] {
        r := Reply(0, wanted);
      } else {
        r := script[0];
        script := script[1..];
      }
    }

    /** _store_block. It fails with the first error that it meets, and then leaves
        every name as it was, unless the unlink of the temporary file failed too. */
    method StoreBlock(tmp: Path, dest: Path, src: Bytes) returns (err: nat, ghost trace: seq<(Fs, Storer)>)
      requires Valid() && tmp != dest
      modifies this
      ensures Valid()
      ensures StoreTrace(trace) && trace[0] == (old(fs), Storer(tmp, dest, src, Check))
      ensures trace[|trace| - 1].0 == fs && trace[|trace| - 1].1.pc.Returned?
      ensures trace[|trace| - 1].1.pc.errno == err
      ensures err == 0 ==>
                && dest in fs.names
                && (fs == old(fs) || (ChangesOnly(old(fs), fs, {dest}) && fs.data[fs.names[dest]] == src))
      ensures err != 0 ==> ChangesOnly(old(fs), fs, {tmp})
      ensures err != 0 && !trace[|trace| - 1].1.pc.leftTmp ==> fs.names == old(fs.names)
      ensures err == StoreError(old(fs), old(script), tmp, dest, |src|)
      ensures script == After(old(script), StoreCalls(old(fs), old(script), tmp, dest, |src|))
      ensures trace[|trace| - 1].1.pc.leftTmp <==> LeavesTemp(old(fs), old(script), tmp, dest, |src|)
    {
      ghost var replies := script;
      var isOpen, fd;
      isOpen, err, fd, trace := OpenTemp(tmp, dest, src);
      if isOpen {
        AfterAfter(replies, 3, PublishCalls(script, |src|));
        AfterAfter(replies, 3, PublishCalls(script, |src|) - 1);
        err, trace := WriteAndRename(tmp, dest, src, fd, trace);
      }
    }

    /** _store_block up to the open of the temporary file. */
    method OpenTemp(tmp: Path, dest: Path, src: Bytes)
      returns (isOpen: bool, err: nat, fd: Inode, ghost trace: seq<(Fs, Storer)>)
      requires Valid() && tmp != dest
      modifies this
      ensures Valid()
      ensures StoreTrace(trace) && trace[0] == (old(fs), Storer(tmp, dest, src, Check))
      ensures trace[|trace| - 1] == (fs, Storer(tmp, dest, src, if isOpen then WriteTmp(fd) else Returned(err, false)))
      ensures !isOpen ==> fs == old(fs) && (err == 0 ==> dest in fs.names)
      ensures isOpen ==>
                tmp !in old(fs.names) && fd !in old(fs.data) && fs == Fs(old(fs.names)[tmp := fd], old(fs.data)[fd := []])
      ensures isOpen <==> !Found(old(fs), old(script), dest) && OpenError(old(fs), old(script), tmp) == 0
      ensures err == if Found(old(fs), old(script), dest) then 0 else OpenError(old(fs), old(script), tmp)
      ensures script == After(old(script), if Found(old(fs), old(script), dest) then 1 else if Errno(old(script), 1) != 0 then 2 else 3)
    {
      AfterAfter(script, 1, 0);
      AfterAfter(script, 1, 1);
      AfterAfter(script, 1, 2);
      ghost var s := Storer(tmp, dest, src, Check);
      isOpen, trace, fd := false, [(fs, s)], nextInode;
      var r := Ask(0);
      if r.errno == 0 && dest in fs.names {
        err, trace := 0, Then(trace, fs, s.(pc := Returned(0, false)));
        return;
      }
      trace := Then(trace, fs, s.(pc := MakeDirs));
      isOpen, err, fd, trace := MakeAndOpen(s, tmp, trace);
    }

    /** The directories, and then the open. */
    method MakeAndOpen(ghost s: Storer, tmp: Path, ghost before: seq<(Fs, Storer)>)
      returns (isOpen: bool, err: nat, fd: Inode, ghost trace: seq<(Fs, Storer)>)
      requires Valid() && s.tmp == tmp && StoreTrace(before) && before[|before| - 1] == (fs, s.(pc := MakeDirs))
      modifies this
      ensures Valid() && StoreTrace(trace) && before <= trace
      ensures trace[|trace| - 1] == (fs, s.(pc := if isOpen then WriteTmp(fd) else Returned(err, false)))
      ensures err == FirstOf(Errno(old(script), 0),
                             FirstOf(Errno(old(script), 1), if tmp in old(fs.names) then EEXIST else 0))
      ensures script == After(old(script), if Errno(old(script), 0) != 0 then 1 else 2)
      ensures isOpen <==> err == 0
      ensures !isOpen ==> fs == old(fs)
      ensures isOpen ==> fd !in old(fs.data) && fs == Fs(old(fs.names)[tmp := fd], old(fs.data)[fd := []])
    {
      AfterAfter(script, 1, 0);
      AfterAfter(script, 1, 1);
      isOpen, fd := false, nextInode;
      var r := Ask(0);
      if r.errno != 0 {
        err, trace := r.errno, Then(before, fs, s.(pc := Returned(r.errno, false)));
        return;
      }
      trace := Then(before, fs, s.(pc := OpenTmp));
      isOpen, err, fd, trace := OpenExclusive(s, tmp, trace);
    }

    /** open with O_CREAT and O_EXCL. */
    method OpenExclusive(ghost s: Storer, tmp: Path, ghost before: seq<(Fs, Storer)>)
      returns (isOpen: bool, err: nat, fd: Inode, ghost trace: seq<(Fs, Storer)>)
      requires Valid() && s.tmp == tmp && StoreTrace(before) && before[|before| - 1] == (fs, s.(pc := OpenTmp))
      modifies this
      ensures Valid() && StoreTrace(trace) && before <= trace
      ensures trace[|trace| - 1] == (fs, s.(pc := if isOpen then WriteTmp(fd) else Returned(err, false)))
      ensures err == FirstOf(Errno(old(script), 0), if tmp in old(fs.names) then EEXIST else 0) && script == After(old(script), 1)
      ensures isOpen <==> err == 0
      ensures !isOpen ==> fs == old(fs)
      ensures isOpen ==> fd !in old(fs.data) && fs == Fs(old(fs.names)[tmp := fd], old(fs.data)[fd := []])
    {
      fd := nextInode;
      var r := Ask(0);
      isOpen := r.errno == 0 && tmp !in fs.names;
      if isOpen {
        err := 0;
        fs, nextInode := Fs(fs.names[tmp := fd], fs.data[fd := []]), nextInode + 1;
        trace := Then(before, fs, s.(pc := WriteTmp(fd)));
      } else {
        err := if r.errno != 0 then r.errno else EEXIST;
        trace := Then(before, fs, s.(pc := Returned(err, false)));
      }
    }

    /** _store_block once the temporary file is open. */
    method WriteAndRename(tmp: Path, dest: Path, src: Bytes, fd: Inode, ghost before: seq<(Fs, Storer)>)
      returns (err: nat, ghost trace: seq<(Fs, Storer)>)
      requires Valid() && tmp != dest && tmp in fs.names && fs.names[tmp] == fd
      requires StoreTrace(before) && before[|before| - 1] == (fs, Storer(tmp, dest, src, WriteTmp(fd)))
      modifies this`fs, this`script
      ensures Valid()
      ensures StoreTrace(trace) && before <= trace
      ensures trace[|trace| - 1].0 == fs && trace[|trace| - 1].1.pc.Returned?
      ensures trace[|trace| - 1].1.pc.errno == err
      ensures fd in fs.data && fs.data == old(fs.data)[fd := fs.data[fd]]
      ensures err == 0 ==> fs.names == Renamed(old(fs), tmp, dest).names && fs.data[fd] == src
      ensures err != 0 ==> fs.names == if trace[|trace| - 1].1.pc.leftTmp then old(fs.names) else old(fs.names) - {tmp}
      ensures err == PublishError(old(script), |src|) && script == After(old(script), PublishCalls(old(script), |src|))
      ensures trace[|trace| - 1].1.pc.leftTmp <==> err != 0 && Errno(old(script), PublishCalls(old(script), |src|) - 1) != 0
    {
      ghost var replies := script;
      AfterAfter(replies, 1, 0);
      AfterAfter(replies, 1, 1);
      AfterAfter(replies, 1, 2);
      AfterAfter(replies, 2, 0);
      AfterAfter(replies, 2, 1);
      AfterAfter(replies, 3, 0);
      AfterAfter(replies, 3, 1);
      ghost var s := Storer(tmp, dest, src, WriteTmp(fd));
      err, trace := WriteTemp(s, src, fd, before);
      if err == 0 {
        err, trace := CloseAndRename(s, tmp, dest, fd, trace);
      }
      if err != 0 {
        trace := Cleanup(s, tmp, fd, err, trace);
      }
    }

    /** The write, and the close after a failed or short one. */
    method WriteTemp(ghost s: Storer, src: Bytes, fd: Inode, ghost before: seq<(Fs, Storer)>)
      returns (err: nat, ghost trace: seq<(Fs, Storer)>)
      requires s.src == src && s.pc == WriteTmp(fd) && fd in fs.data
      requires StoreTrace(before) && before[|before| - 1] == (fs, s)
      modifies this`fs, this`script
      ensures StoreTrace(trace) && before <= trace
      ensures fs.names == old(fs.names) && fd in fs.data && fs.data == old(fs.data)[fd := fs.data[fd]]
      ensures err == 0 ==> fs.data[fd] == src
      ensures trace[|trace| - 1] == (fs, s.(pc := if err == 0 then CloseTmp(fd) else UnlinkTmp(fd, err)))
      ensures err == WriteError(old(script), |src|) && script == After(old(script), 1)
    {
      var r := Ask(|src|);
      fs := fs.(data := fs.data[fd := if r.count < |src| then src[..r.count] else src]);
      if r.errno == 0 && r.count >= |src| {
        err := 0;
        trace := Then(before, fs, s.(pc := CloseTmp(fd)));
      } else {
        err := if r.errno != 0 then r.errno else EIO;
        trace := Then(before, fs, s.(pc := CloseShort(fd, err)));
        trace := Then(trace, fs, s.(pc := UnlinkTmp(fd, err)));
      }
    }

    method CloseAndRename(ghost s: Storer, tmp: Path, dest: Path, fd: Inode, ghost before: seq<(Fs, Storer)>)
      returns (err: nat, ghost trace: seq<(Fs, Storer)>)
      requires s.tmp == tmp && s.dest == dest && tmp in fs.names
      requires StoreTrace(before) && before[|before| - 1] == (fs, s.(pc := CloseTmp(fd)))
      modifies this`fs, this`script
      ensures StoreTrace(trace) && before <= trace
      ensures fs == if err == 0 then Renamed(old(fs), tmp, dest) else old(fs)
      ensures trace[|trace| - 1] == (fs, s.(pc := if err == 0 then Returned(0, false) else UnlinkTmp(fd, err)))
      ensures err == FirstOf(Errno(old(script), 0), Errno(old(script), 1))
      ensures script == After(old(script), if Errno(old(script), 0) != 0 then 1 else 2)
    {
      AfterAfter(script, 1, 0);
      AfterAfter(script, 1, 1);
      var r := Ask(0);
      err := r.errno;
      if err != 0 {
        trace := Then(before, fs, s.(pc := UnlinkTmp(fd, err)));
        return;
      }
      trace := Then(before, fs, s.(pc := RenameTmp(fd)));
      r := Ask(0);
      err := r.errno;
      if err != 0 {
        trace := Then(trace, fs, s.(pc := UnlinkTmp(fd, err)));
        return;
      }
      fs := Renamed(fs, tmp, dest);
      trace := Then(trace, fs, s.(pc := Returned(0, false)));
    }

    /** unlink of the temporary file, whose own failure is ignored. */
    method Cleanup(ghost s: Storer, tmp: Path, ghost fd: Inode, ghost err: nat, ghost before: seq<(Fs, Storer)>)
      returns (ghost trace: seq<(Fs, Storer)>)
      requires s.tmp == tmp
      requires StoreTrace(before) && before[|before| - 1] == (fs, s.(pc := UnlinkTmp(fd, err)))
      modifies this`fs, this`script
      ensures StoreTrace(trace) && before <= trace
      ensures trace[|trace| - 1].0 == fs && trace[|trace| - 1].1.pc.Returned?
      ensures trace[|trace| - 1].1.pc.errno == err
      ensures fs == if trace[|trace| - 1].1.pc.leftTmp then old(fs) else Unlinked(old(fs), tmp)
      ensures trace[|trace| - 1].1.pc.leftTmp <==> Errno(old(script), 0) != 0
      ensures script == After(old(script), 1)
    {
      var r := Ask(0);
      if r.errno == 0 {
        fs := Unlinked(fs, tmp);
      }
      trace := Then(before, fs, s.(pc := Returned(err, r.errno != 0)));
    }

    /** _load_block: a failure of any step unlinks the source. */
    method LoadBlock(source: Path, size: nat) returns (err: nat, buffer: Bytes, ghost trace: seq<(Fs, Loader)>)
      requires Valid()
      modifies this`fs, this`script
      ensures Valid()
      ensures LoadTrace(trace) && trace[0] == (old(fs), Loader(source, size, [], OpenSource))
      ensures trace[|trace| - 1] == (fs, Loader(source, size, buffer, LoadReturned(err)))
      ensures err == 0 ==>
                && fs == old(fs) && source in fs.names
                && size <= |fs.data[fs.names[source]]| && buffer == fs.data[fs.names[source]][..size]
      ensures err == LoadError(old(fs), old(script), source, size)
      ensures var calls := LoadCalls(old(fs), old(script), source, size);
              && script == After(old(script), calls)
              && fs == if err != 0 && Errno(old(script), calls - 1) == 0 then Unlinked(old(fs), source) else old(fs)
    {
      ghost var replies, calls := script, LoadCalls(fs, script, source, size);
      AfterAfter(replies, calls - 1, 0);
      AfterAfter(replies, calls - 1, 1);
      err, buffer, trace := ReadBlock(source, size);
      if err != 0 {
        var r := Ask(0);
        if r.errno == 0 {
          fs := Unlinked(fs, source);
        }
        trace := ThenLoad(trace, fs, Loader(source, size, buffer, LoadReturned(err)));
      }
    }

    /** _load_block up to the unlink: open, read and close. */
    method ReadBlock(source: Path, size: nat) returns (err: nat, buffer: Bytes, ghost trace: seq<(Fs, Loader)>)
      requires Valid()
      modifies this`script
      ensures LoadTrace(trace) && trace[0] == (fs, Loader(source, size, [], OpenSource))
      ensures trace[|trace| - 1] == (fs, Loader(source, size, buffer, if err == 0 then LoadReturned(0) else UnlinkSource(err)))
      ensures err == 0 ==>
                && source in fs.names
                && size <= |fs.data[fs.names[source]]| && buffer == fs.data[fs.names[source]][..size]
      ensures err == LoadError(fs, old(script), source, size)
      ensures script == After(old(script), LoadCalls(fs, old(script), source, size) - if err == 0 then 0 else 1)
    {
      AfterAfter(script, 1, 0);
      AfterAfter(script, 1, 1);
      AfterAfter(script, 2, 0);
      AfterAfter(script, 2, 1);
      buffer := [];
      trace := [(fs, Loader(source, size, buffer, OpenSource))];
      var r := Ask(0);
      err := if r.errno == 0 && source !in fs.names then ENOENT else r.errno;
      if err == 0 {
        var fd := fs.names[source];
        trace := ThenLoad(trace, fs, Loader(source, size, buffer, ReadSource(fd)));
        r := Ask(size);
        if r.errno != 0 || r.count < size || |fs.data[fd]| < size {
          err := if r.errno != 0 then r.errno else EIO;
          trace := ThenLoad(trace, fs, Loader(source, size, buffer, CloseBad(err)));
        } else {
          buffer := fs.data[fd][..size];
          trace := ThenLoad(trace, fs, Loader(source, size, buffer, CloseSource));
          r := Ask(0);
          err := r.errno;
        }
      }
      trace := ThenLoad(trace, fs, Loader(source, size, buffer, if err == 0 then LoadReturned(0) else UnlinkSource(err)));
    }
  }

  datatype BatchResult = LengthMismatch | Done | FailedAt(index: nat, errno: nat)
  {
    /** How many leading blocks were handled without error. */
    function Handled(n: nat): nat {
      match this
      case LengthMismatch => 0
      case Done => n
      case FailedAt(i, _) => i
    }
  }

  /** The block named `p` is on disk: the file that was there before, or the
      buffer of one of the first `n` blocks of the batch with that name. */
  ghost predicate StoredAs(was: Fs, fs: Fs, dests: seq<Path>, buffers: seq<Bytes>, n: nat, p: Path)
    requires n <= |dests| == |buffers|
  {
    && p in fs.names && fs.names[p] in fs.data
    && (|| (p in was.names && fs.names[p] == was.names[p])
        || exists i :: 0 <= i < n && dests[i] == p && fs.data[fs.names[p]] == buffers[i])
  }

  ghost predicate BatchStored(was: Fs, fs: Fs, dests: seq<Path>, buffers: seq<Bytes>, n: nat)
    requires n <= |dests| == |buffers|
  {
    forall j :: 0 <= j < n ==> StoredAs(was, fs, dests, buffers, n, dests[j])
  }

  /** One more successful store extends the stored part of the batch. */
  lemma StoredOneMore(was: Fs, fs: Fs, fs': Fs, dests: seq<Path>, buffers: seq<Bytes>, i: nat)
    requires i < |dests| == |buffers|
    requires BatchStored(was, fs, dests, buffers, i)
    requires ChangesOnly(was, fs, Names(dests[..i]))
    requires forall p :: p in fs'.names ==> fs'.names[p] in fs'.data
    requires dests[i] in fs'.names
    requires fs' == fs || (ChangesOnly(fs, fs', {dests[i]}) && fs'.data[fs'.names[dests[i]]] == buffers[i])
    ensures BatchStored(was, fs', dests, buffers, i + 1)
    ensures ChangesOnly(was, fs', Names(dests[..i + 1]))
  {
    assert dests[..i + 1] == dests[..i] + [dests[i]];
    assert StoredAs(was, fs', dests, buffers, i + 1, dests[i]) by {
      if fs' == fs {
        if k :| 0 <= k < i && dests[k] == dests[i] {
          assert StoredAs(was, fs, dests, buffers, i, dests[k]);
        } else {
          assert dests[i] !in Names(dests[..i]);
        }
      }
    }
    forall j | 0 <= j < i ensures StoredAs(was, fs', dests, buffers, i + 1, dests[j]) {
      if dests[j] != dests[i] {
        assert StoredAs(was, fs, dests, buffers, i, dests[j]);
      }
    }
  }

  /** A failed store leaves the stored part alone: it only touches its own
      temporary name. */
  lemma StoredDespiteFailure(was: Fs, fs: Fs, fs': Fs, dests: seq<Path>, buffers: seq<Bytes>, i: nat, tmp: Path)
    requires i < |dests| == |buffers| && tmp !in dests
    requires BatchStored(was, fs, dests, buffers, i)
    requires ChangesOnly(was, fs, Names(dests[..i])) && ChangesOnly(fs, fs', {tmp})
    ensures BatchStored(was, fs', dests, buffers, i)
    ensures ChangesOnly(was, fs', Names(dests[..i]) + {tmp})
  {
    forall j | 0 <= j < i ensures StoredAs(was, fs', dests, buffers, i, dests[j]) {
      assert StoredAs(was, fs, dests, buffers, i, dests[j]) && dests[j] != tmp;
    }
  }

  function Names(paths: seq<Path>): set<Path> {
    set p | p in paths
  }

  /** The disk, and the replies to come, when a call begins. */
  datatype Moment = Moment(fs: Fs, script: seq<Reply>)

  /** Store `j` of the batch succeeds from one moment, and the next begins with the
      replies that it left. */
  ghost predicate StoredNext(m: seq<Moment>, tmps: seq<Path>, dests: seq<Path>, buffers: seq<Bytes>, j: nat)
    requires j + 1 < |m| && j < |tmps| == |dests| == |buffers|
  {
    && StoreError(m[j].fs, m[j].script, tmps[j], dests[j], |buffers[j]|) == 0
    && m[j + 1].script == After(m[j].script, StoreCalls(m[j].fs, m[j].script, tmps[j], dests[j], |buffers[j]|))
  }

  ghost predicate StoresInTurn(m: seq<Moment>, tmps: seq<Path>, dests: seq<Path>, buffers: seq<Bytes>)
  {
    && |tmps| == |dests| == |buffers| && 0 < |m| <= |tmps| + 1
    && forall j {:trigger StoredNext(m, tmps, dests, buffers, j)} :: 0 <= j < |m| - 1 ==> StoredNext(m, tmps, dests, buffers, j)
  }

  ghost predicate LoadedNext(fs: Fs, scripts: seq<seq<Reply>>, sources: seq<Path>, sizes: seq<nat>, j: nat)
    requires j + 1 < |scripts| && j < |sources| == |sizes|
  {
    && LoadError(fs, scripts[j], sources[j], sizes[j]) == 0
    && scripts[j + 1] == After(scripts[j], LoadCalls(fs, scripts[j], sources[j], sizes[j]))
  }

  ghost predicate LoadsInTurn(fs: Fs, scripts: seq<seq<Reply>>, sources: seq<Path>, sizes: seq<nat>)
  {
    && |sources| == |sizes| && 0 < |scripts| <= |sources| + 1
    && forall j {:trigger LoadedNext(fs, scripts, sources, sizes, j)} :: 0 <= j < |scripts| - 1 ==>
         LoadedNext(fs, scripts, sources, sizes, j)
  }

  lemma OneMoreStore(m: seq<Moment>, next: Moment, tmps: seq<Path>, dests: seq<Path>, buffers: seq<Bytes>)
    requires StoresInTurn(m, tmps, dests, buffers) && |m| <= |tmps|
    requires StoredNext(m + [next], tmps, dests, buffers, |m| - 1)
    ensures StoresInTurn(m + [next], tmps, dests, buffers)
  {
    var m' := m + [next];
    forall j {:trigger StoredNext(m', tmps, dests, buffers, j)} | 0 <= j < |m'| - 1 ensures StoredNext(m', tmps, dests, buffers, j) {
      if j < |m| - 1 {
        assert StoredNext(m, tmps, dests, buffers, j);
      }
    }
  }

  lemma OneMoreLoad(fs: Fs, scripts: seq<seq<Reply>>, next: seq<Reply>, sources: seq<Path>, sizes: seq<nat>)
    requires LoadsInTurn(fs, scripts, sources, sizes) && |scripts| <= |sources|
    requires LoadedNext(fs, scripts + [next], sources, sizes, |scripts| - 1)
    ensures LoadsInTurn(fs, scripts + [next], sources, sizes)
  {
    var scripts' := scripts + [next];
    forall j {:trigger LoadedNext(fs, scripts', sources, sizes, j)} | 0 <= j < |scripts'| - 1
      ensures LoadedNext(fs, scripts', sources, sizes, j)
    {
      if j < |scripts| - 1 {
        assert LoadedNext(fs, scripts, sources, sizes, j);
      }
    }
  }

  lemma {:induction false} StaysHealthy(m: seq<Moment>, tmps: seq<Path>, dests: seq<Path>, buffers: seq<Bytes>, j: nat)
    requires StoresInTurn(m, tmps, dests, buffers) && j < |m| && HealthyFor(m[0].script, buffers)
    ensures HealthyFor(m[j].script, buffers)
  {
    if j > 0 {
      StaysHealthy(m, tmps, dests, buffers, j - 1);
      assert StoredNext(m, tmps, dests, buffers, j - 1);
      HealthyAfter(m[j - 1].script, buffers,
                   StoreCalls(m[j - 1].fs, m[j - 1].script, tmps[j - 1], dests[j - 1], |buffers[j - 1]|));
    }
  }

  /** With healthy replies and free temporary names no store of the batch fails. */
  lemma HealthyBatch(m: seq<Moment>, tmps: seq<Path>, dests: seq<Path>, buffers: seq<Bytes>)
    requires StoresInTurn(m, tmps, dests, buffers) && |m| <= |tmps| && HealthyFor(m[0].script, buffers)
    requires tmps[|m| - 1] !in m[|m| - 1].fs.names
    ensures StoreError(m[|m| - 1].fs, m[|m| - 1].script, tmps[|m| - 1], dests[|m| - 1], |buffers[|m| - 1]|) == 0
  {
    var j := |m| - 1;
    StaysHealthy(m, tmps, dests, buffers, j);
    assert Healthy(m[j].script, |buffers[j]|);
    HealthyStore(m[j].fs, m[j].script, tmps[j], dests[j], |buffers[j]|);
  }

  lemma {:induction false} StaysLoadable(fs: Fs, scripts: seq<seq<Reply>>, sources: seq<Path>, sizes: seq<nat>, j: nat)
    requires LoadsInTurn(fs, scripts, sources, sizes) && j < |scripts| && CanLoadAll(fs, scripts[0], sources, sizes)
    ensures CanLoadAll(fs, scripts[j], sources, sizes)
  {
    if j > 0 {
      StaysLoadable(fs, scripts, sources, sizes, j - 1);
      assert LoadedNext(fs, scripts, sources, sizes, j - 1);
      CanLoadRest(fs, scripts[j - 1], sources, sizes, LoadCalls(fs, scripts[j - 1], sources[j - 1], sizes[j - 1]));
    }
  }

  lemma HealthyLoads(fs: Fs, scripts: seq<seq<Reply>>, sources: seq<Path>, sizes: seq<nat>)
    requires LoadsInTurn(fs, scripts, sources, sizes) && |scripts| <= |sources| && CanLoadAll(fs, scripts[0], sources, sizes)
    ensures LoadError(fs, scripts[|scripts| - 1], sources[|scripts| - 1], sizes[|scripts| - 1]) == 0
  {
    var j := |scripts| - 1;
    StaysLoadable(fs, scripts, sources, sizes, j);
    HealthyLoad(fs, scripts[j], sources[j], sizes[j]);
  }

  predicate HealthyFor(script: seq<Reply>, buffers: seq<Bytes>) {
    forall i :: 0 <= i < |buffers| ==> Healthy(script, |buffers[i]|)
  }

  lemma HealthyAfter(script: seq<Reply>, buffers: seq<Bytes>, k: nat)
    requires HealthyFor(script, buffers)
    ensures HealthyFor(After(script, k), buffers)
  {
    forall i | 0 <= i < |buffers| ensures Healthy(After(script, k), |buffers[i]|) {
      assert Healthy(script, |buffers[i]|);
    }
  }

  /** Every block is there, whole, and every reply moves enough bytes for it. */
  predicate CanLoadAll(fs: Fs, script: seq<Reply>, sources: seq<Path>, sizes: seq<nat>) {
    && |sources| == |sizes|
    && forall i :: 0 <= i < |sources| ==> sources[i] in fs.names && sizes[i] <= Held(fs, sources[i]) && Healthy(script, sizes[i])
  }

  lemma CanLoadRest(fs: Fs, script: seq<Reply>, sources: seq<Path>, sizes: seq<nat>, k: nat)
    requires CanLoadAll(fs, script, sources, sizes)
    ensures CanLoadAll(fs, After(script, k), sources, sizes)
  {
    forall i | 0 <= i < |sources| ensures Healthy(After(script, k), sizes[i]) {
      assert Healthy(script, sizes[i]);
    }
  }

  /** Where the batch stands after its first `i` stores. */
  ghost predicate StoredSoFar(m: seq<Moment>, fs: Fs, script: seq<Reply>, tmps: seq<Path>, dests: seq<Path>, buffers: seq<Bytes>, i: nat) {
    StoredParts(m, fs, script, tmps, dests, buffers, i) == true
  }

  ghost predicate StoredParts(m: seq<Moment>, fs: Fs, script: seq<Reply>, tmps: seq<Path>, dests: seq<Path>, buffers: seq<Bytes>, i: nat) {
    && StoresInTurn(m, tmps, dests, buffers) && |m| == i + 1 && m[i] == Moment(fs, script)
    && BatchStored(m[0].fs, fs, dests, buffers, i)
    && ChangesOnly(m[0].fs, fs, Names(dests[..i]))
  }

  lemma BatchGoesOn(m: seq<Moment>, fs: Fs, script: seq<Reply>, tmps: seq<Path>, dests: seq<Path>, buffers: seq<Bytes>, i: nat,
                    fs': Fs, script': seq<Reply>)
    requires StoredSoFar(m, fs, script, tmps, dests, buffers, i) && i < |tmps| == |dests| == |buffers|
    requires forall p :: p in fs'.names ==> fs'.names[p] in fs'.data
    requires dests[i] in fs'.names
    requires fs' == fs || (ChangesOnly(fs, fs', {dests[i]}) && fs'.data[fs'.names[dests[i]]] == buffers[i])
    requires StoreError(fs, script, tmps[i], dests[i], |buffers[i]|) == 0
    requires script' == After(script, StoreCalls(fs, script, tmps[i], dests[i], |buffers[i]|))
    ensures StoredSoFar(m + [Moment(fs', script')], fs', script', tmps, dests, buffers, i + 1)
  {
    StoredOneMore(m[0].fs, fs, fs', dests, buffers, i);
    OneMoreStore(m, Moment(fs', script'), tmps, dests, buffers);
  }

  /** A free temporary name is still free when its turn comes. */
  lemma TempStillFree(m: seq<Moment>, fs: Fs, script: seq<Reply>, tmps: seq<Path>, dests: seq<Path>, buffers: seq<Bytes>, i: nat)
    requires StoredSoFar(m, fs, script, tmps, dests, buffers, i) && i < |tmps| == |dests| == |buffers|
    requires tmps[i] !in dests && tmps[i] !in m[0].fs.names
    ensures tmps[i] !in fs.names
  {
    assert tmps[i] !in Names(dests[..i]);
  }

  /** The batch finds free temporary names and no failing call. */
  predicate Untroubled(fs: Fs, script: seq<Reply>, tmps: seq<Path>, buffers: seq<Bytes>) {
    Names(tmps) !! fs.names.Keys && HealthyFor(script, buffers)
  }

  lemma BatchFails(m: seq<Moment>, fs: Fs, script: seq<Reply>, tmps: seq<Path>, dests: seq<Path>, buffers: seq<Bytes>, i: nat, fs': Fs)
    requires StoredSoFar(m, fs, script, tmps, dests, buffers, i) && i < |tmps| == |dests| == |buffers|
    requires Names(tmps) !! Names(dests) && ChangesOnly(fs, fs', {tmps[i]})
    requires StoreError(fs, script, tmps[i], dests[i], |buffers[i]|) != 0
    ensures BatchStored(m[0].fs, fs', dests, buffers, i) && ChangesOnly(m[0].fs, fs', Names(dests[..i]) + {tmps[i]})
    ensures !Untroubled(m[0].fs, m[0].script, tmps, buffers)
  {
    assert tmps[i] in Names(tmps) && tmps[i] !in dests by {
      assert tmps[i] !in Names(dests);
    }
    StoredDespiteFailure(m[0].fs, fs, fs', dests, buffers, i, tmps[i]);
    if Untroubled(m[0].fs, m[0].script, tmps, buffers) {
      TempStillFree(m, fs, script, tmps, dests, buffers, i);
      HealthyBatch(m, tmps, dests, buffers);
      assert false;
    }
  }

  /** How the stores of a batch ended, when they began at `m[0]`. */
  ghost predicate BatchEnds(r: BatchResult, m: seq<Moment>, tmps: seq<Path>, dests: seq<Path>, buffers: seq<Bytes>) {
    && StoresInTurn(m, tmps, dests, buffers) && |m| == r.Handled(|dests|) + 1
    && match r
       case LengthMismatch => false
       case Done => true
       case FailedAt(i, err) =>
         i < |dests| && err != 0 && err == StoreError(m[i].fs, m[i].script, tmps[i], dests[i], |buffers[i]|)
  }

  /** The loop of batch_store_block: stops at the first error, keeps what was
      stored before it, and never touches what comes after. It gets to its end on a
      disk that fails no call, if no temporary name is taken. */
  method BatchStore(disk: Disk, tmps: seq<Path>, dests: seq<Path>, buffers: seq<Bytes>)
    returns (r: BatchResult, ghost m: seq<Moment>)
    requires disk.Valid() && Names(tmps) !! Names(dests)
    modifies disk
    ensures disk.Valid() && |m| > 0 && m[0] == Moment(old(disk.fs), old(disk.script))
    ensures r.LengthMismatch? <==> !(|tmps| == |dests| == |buffers|)
    ensures r.LengthMismatch? ==> disk.fs == old(disk.fs)
    ensures !r.LengthMismatch? ==>
              BatchEnds(r, m, tmps, dests, buffers) && BatchStored(m[0].fs, disk.fs, dests, buffers, r.Handled(|dests|))
    ensures r.Done? ==> ChangesOnly(m[0].fs, disk.fs, Names(dests)) && m[|dests|] == Moment(disk.fs, disk.script)
    ensures r.FailedAt? ==> ChangesOnly(m[0].fs, disk.fs, Names(dests[..r.index]) + {tmps[r.index]})
    ensures r.FailedAt? ==> !Untroubled(m[0].fs, m[0].script, tmps, buffers)
  {
    m := [Moment(disk.fs, disk.script)];
    if !(|tmps| == |dests| == |buffers|) {
      return LengthMismatch, m;
    }
    var i := 0;
    while i < |dests|
      invariant 0 <= i <= |dests| && disk.Valid() && |m| > 0 && m[0] == Moment(old(disk.fs), old(disk.script))
      invariant StoredSoFar(m, disk.fs, disk.script, tmps, dests, buffers, i)
    {
      assert tmps[i] in Names(tmps) && dests[i] in Names(dests);
      ghost var before, replies := disk.fs, disk.script;
      var err, _ := disk.StoreBlock(tmps[i], dests[i], buffers[i]);
      if err != 0 {
        BatchFails(m, before, replies, tmps, dests, buffers, i, disk.fs);
        return FailedAt(i, err), m;
      }
      BatchGoesOn(m, before, replies, tmps, dests, buffers, i, disk.fs, disk.script);
      m := m + [Moment(disk.fs, disk.script)];
      i := i + 1;
    }
    assert dests[..i] == dests;
    return Done, m;
  }

  /** With distinct new names, what is stored under a name is its own buffer. */
  lemma NewNamesHoldTheirBuffers(was: Fs, fs: Fs, dests: seq<Path>, buffers: seq<Bytes>)
    requires |dests| == |buffers| && BatchStored(was, fs, dests, buffers, |dests|)
    requires forall i, j :: 0 <= i < j < |dests| ==> dests[i] != dests[j]
    requires forall i :: 0 <= i < |dests| ==> dests[i] !in was.names
    ensures HoldBuffers(fs, dests, buffers)
  {
    forall j | 0 <= j < |dests| ensures StoredAs(was, fs, dests, buffers, |dests|, dests[j]) {
    }
  }

  /** The first blocks of a batch, as they are on disk. */
  ghost predicate LoadedFrom(fs: Fs, sources: seq<Path>, sizes: seq<nat>, buffers: seq<Bytes>) {
    && |buffers| <= |sources| == |sizes|
    && forall j :: 0 <= j < |buffers| ==>
         && sources[j] in fs.names && fs.names[sources[j]] in fs.data && sizes[j] <= |fs.data[fs.names[sources[j]]]|
         && buffers[j] == fs.data[fs.names[sources[j]]][..sizes[j]]
  }

  /** The loop of batch_load_block: stops at the first error, and unlinks that
      block if the disk lets it. */
  method BatchLoad(disk: Disk, sources: seq<Path>, sizes: seq<nat>)
    returns (r: BatchResult, buffers: seq<Bytes>, ghost scripts: seq<seq<Reply>>)
    requires disk.Valid()
    modifies disk
    ensures disk.Valid()
    ensures r.LengthMismatch? <==> |sources| != |sizes|
    ensures r.LengthMismatch? ==> disk.fs == old(disk.fs) && buffers == []
    ensures !r.LengthMismatch? ==>
              && LoadsInTurn(old(disk.fs), scripts, sources, sizes) && scripts[0] == old(disk.script)
              && |scripts| == r.Handled(|sources|) + 1 == |buffers| + 1 && LoadedFrom(old(disk.fs), sources, sizes, buffers)
    ensures r.Done? ==> disk.fs == old(disk.fs)
    ensures r.FailedAt? ==>
              && r.index < |sources| && r.errno != 0
              && r.errno == LoadError(old(disk.fs), scripts[r.index], sources[r.index], sizes[r.index])
              && (disk.fs == old(disk.fs) || disk.fs == Unlinked(old(disk.fs), sources[r.index]))
              && !CanLoadAll(old(disk.fs), old(disk.script), sources, sizes)
  {
    buffers, scripts := [], [disk.script];
    if |sources| != |sizes| {
      return LengthMismatch, buffers, scripts;
    }
    var i := 0;
    while i < |sources|
      invariant 0 <= i <= |sources| && |buffers| == i && |scripts| == i + 1 && disk.Valid() && disk.fs == old(disk.fs)
      invariant scripts[0] == old(disk.script) && scripts[i] == disk.script && LoadsInTurn(old(disk.fs), scripts, sources, sizes)
      invariant LoadedFrom(old(disk.fs), sources, sizes, buffers)
    {
      var err, buffer, _ := disk.LoadBlock(sources[i], sizes[i]);
      if err != 0 {
        if CanLoadAll(old(disk.fs), old(disk.script), sources, sizes) {
          HealthyLoads(old(disk.fs), scripts, sources, sizes);
          assert false;
        }
        return FailedAt(i, err), buffers, scripts;
      }
      OneMoreLoad(old(disk.fs), scripts, disk.script, sources, sizes);
      scripts := scripts + [disk.script];
      buffers := buffers + [buffer];
      i := i + 1;
    }
    return Done, buffers, scripts;
  }

  /** Each name holds its own buffer. */
  ghost predicate HoldBuffers(fs: Fs, dests: seq<Path>, buffers: seq<Bytes>) {
    && |dests| == |buffers|
    && forall j :: 0 <= j < |dests| ==>
         dests[j] in fs.names && fs.names[dests[j]] in fs.data && fs.data[fs.names[dests[j]]] == buffers[j]
  }

  lemma LoadableBack(fs: Fs, script: seq<Reply>, dests: seq<Path>, buffers: seq<Bytes>, sizes: seq<nat>)
    requires HoldBuffers(fs, dests, buffers) && HealthyFor(script, buffers)
    requires |sizes| == |buffers| && forall i :: 0 <= i < |sizes| ==> sizes[i] == |buffers[i]|
    ensures CanLoadAll(fs, script, dests, sizes)
  {
    forall i | 0 <= i < |dests| ensures Healthy(script, sizes[i]) {
      assert Healthy(script, |buffers[i]|);
    }
  }

  lemma SameBuffers(fs: Fs, dests: seq<Path>, buffers: seq<Bytes>, sizes: seq<nat>, loaded: seq<Bytes>)
    requires HoldBuffers(fs, dests, buffers) && LoadedFrom(fs, dests, sizes, loaded) && |loaded| == |buffers|
    requires |sizes| == |buffers| && forall i :: 0 <= i < |sizes| ==> sizes[i] == |buffers[i]|
    ensures loaded == buffers
  {
    forall j | 0 <= j < |buffers| ensures loaded[j] == buffers[j] {
      assert buffers[j][..sizes[j]] == buffers[j];
    }
  }

  /** Round trip: blocks stored under new names and loaded back with their own
      sizes come back unchanged, whatever faults the disk has, if both batches
      report success; and they do if no call fails and no temporary name is taken. */
  method StoreThenLoad(disk: Disk, tmps: seq<Path>, dests: seq<Path>, buffers: seq<Bytes>)
    returns (ok: bool, loaded: seq<Bytes>)
    requires disk.Valid() && Names(tmps) !! Names(dests)
    requires |tmps| == |dests| == |buffers|
    requires forall i, j :: 0 <= i < j < |dests| ==> dests[i] != dests[j]
    requires forall i :: 0 <= i < |dests| ==> dests[i] !in disk.fs.names
    modifies disk
    ensures ok ==> loaded == buffers
    ensures Untroubled(old(disk.fs), old(disk.script), tmps, buffers) ==> ok
  {
    var stored, m := BatchStore(disk, tmps, dests, buffers);
    if !stored.Done? {
      return false, [];
    }
    NewNamesHoldTheirBuffers(m[0].fs, disk.fs, dests, buffers);
    var sizes: seq<nat> := seq(|buffers|, i requires 0 <= i < |buffers| => |buffers[i]|);
    if Untroubled(m[0].fs, m[0].script, tmps, buffers) {
      StaysHealthy(m, tmps, dests, buffers, |dests|);
      LoadableBack(disk.fs, disk.script, dests, buffers, sizes);
    }
    ghost var was := disk.fs;
    var r, back, _ := BatchLoad(disk, dests, sizes);
    ok, loaded := r.Done?, back;
    if ok {
      SameBuffers(was, dests, buffers, sizes, back);
    }
  }
}
