/** The block store and load protocol of csrc/fs_io.cpp, as interleaved atomic
    steps of any number of storers and loaders on one shared file system.
    Every system call may fail, writes may be short, and a process may crash
    between any two steps. */
module BlockStore {

  type Path = string
  type Inode = nat
  type Bytes = seq<bv8>

  /** Names point at inodes; an open descriptor is an inode, and stays readable
      after its name is gone. */
  datatype Fs = Fs(names: map<Path, Inode>, data: map<Inode, Bytes>)

  datatype StorePc =
    | Check
    | MakeDirs
    | OpenTmp
    | WriteTmp(fd: Inode)
    | CloseShort(fd: Inode, errno: nat)
    | CloseTmp(fd: Inode)
    | RenameTmp(fd: Inode)
    | UnlinkTmp(fd: Inode, errno: nat)
    | Returned(errno: nat, leftTmp: bool)
    | Crashed
  {
    /** Between a successful exclusive open and the rename or unlink. */
    predicate Holds() {
      WriteTmp? || CloseShort? || CloseTmp? || RenameTmp? || UnlinkTmp?
    }

    predicate Live() {
      !Returned? && !Crashed?
    }

    /** An error return before the open, when there is nothing to clean up. */
    predicate Failed() {
      Returned? && errno != 0 && !leftTmp
    }
  }

  datatype Storer = Storer(tmp: Path, dest: Path, src: Bytes, pc: StorePc)

  datatype LoadPc =
    | OpenSource
    | ReadSource(fd: Inode)
    | CloseSource
    | CloseBad(errno: nat)
    | UnlinkSource(errno: nat)
    | LoadReturned(errno: nat)
    | LoadCrashed

  datatype Loader = Loader(source: Path, size: nat, buffer: Bytes, pc: LoadPc)

  /** `creator` is history: which storer created an inode. */
  datatype System = System(fs: Fs, storers: seq<Storer>, loaders: seq<Loader>, creator: map<Inode, nat>)

  // ---------------------------------------------------------------- steps

  /** One step of _store_block. */
  ghost predicate StorerStep(fs: Fs, s: Storer, fs': Fs, s': Storer)
  {
    && s' == s.(pc := s'.pc)
    && (|| (s.pc.Live() && s'.pc == Crashed && fs' == fs)
        || match s.pc
           case Check =>
             fs' == fs && (s'.pc == MakeDirs || (s.dest in fs.names && s'.pc == Returned(0, false)))
           case MakeDirs =>
             fs' == fs && (s'.pc == OpenTmp || s'.pc.Failed())
           case OpenTmp =>
             || (fs' == fs && s'.pc.Failed())
             || (s'.pc.WriteTmp? && Opened(fs, s.tmp, s'.pc.fd, fs'))
           case WriteTmp(fd) =>
             && fd in fs'.data
             && fs'.data[fd] <= s.src
             && fs' == fs.(data := fs.data[fd := fs'.data[fd]])
             && (|| s'.pc == WriteTmp(fd)
                 || (s'.pc.CloseShort? && s'.pc.fd == fd && s'.pc.errno != 0)
                 || (fs'.data[fd] == s.src && s'.pc == CloseTmp(fd)))
           case CloseShort(fd, errno) =>
             fs' == fs && s'.pc == UnlinkTmp(fd, errno)
           case CloseTmp(fd) =>
             fs' == fs && (s'.pc == RenameTmp(fd) || (s'.pc.UnlinkTmp? && s'.pc.fd == fd && s'.pc.errno != 0))
           case RenameTmp(fd) =>
             || (fs' == fs && s'.pc.UnlinkTmp? && s'.pc.fd == fd && s'.pc.errno != 0)
             || (s.tmp in fs.names && fs' == Renamed(fs, s.tmp, s.dest) && s'.pc == Returned(0, false))
           case UnlinkTmp(_, errno) =>
             || (fs' == fs && s'.pc == Returned(errno, true))
             || (fs' == Unlinked(fs, s.tmp) && s'.pc == Returned(errno, false))
           case _ => false)
  }

  /** open with O_CREAT and O_EXCL: the name must be free, the inode is new. */
  predicate Opened(fs: Fs, p: Path, ino: Inode, fs': Fs) {
    p !in fs.names && ino !in fs.data && fs' == Fs(fs.names[p := ino], fs.data[ino := []])
  }

  function Renamed(fs: Fs, from: Path, to: Path): Fs
    requires from in fs.names
  {
    fs.(names := (fs.names - {from})[to := fs.names[from]])
  }

  function Unlinked(fs: Fs, p: Path): Fs {
    fs.(names := fs.names - {p})
  }

  /** One step of _load_block. */
  ghost predicate LoaderStep(fs: Fs, l: Loader, fs': Fs, l': Loader)
  {
    && l'.source == l.source && l'.size == l.size
    && (|| (!l.pc.LoadReturned? && !l.pc.LoadCrashed? && l' == l.(pc := LoadCrashed) && fs' == fs)
        || match l.pc
           case OpenSource =>
             && fs' == fs && l'.buffer == l.buffer
             && (|| (l.source in fs.names && l'.pc == ReadSource(fs.names[l.source]))
                 || (l'.pc.UnlinkSource? && l'.pc.errno != 0))
           case ReadSource(fd) =>
             && fs' == fs && fd in fs.data
             && (|| (l.size <= |fs.data[fd]| && l'.buffer == fs.data[fd][..l.size] && l'.pc == CloseSource)
                 || (l'.pc.CloseBad? && l'.pc.errno != 0))
           case CloseBad(errno) =>
             fs' == fs && l' == l.(pc := UnlinkSource(errno))
           case CloseSource =>
             && fs' == fs && l'.buffer == l.buffer
             && (l'.pc == LoadReturned(0) || (l'.pc.UnlinkSource? && l'.pc.errno != 0))
           case UnlinkSource(errno) =>
             (fs' == fs || fs' == Unlinked(fs, l.source)) && l' == l.(pc := LoadReturned(errno))
           case _ => false)
  }

  ghost predicate StorerMoves(t: System, i: nat, t': System)
  {
    && i < |t.storers| == |t'.storers|
    && t'.storers == t.storers[i := t'.storers[i]]
    && t'.loaders == t.loaders
    && StorerStep(t.fs, t.storers[i], t'.fs, t'.storers[i])
    && t'.creator == (if t.storers[i].pc.OpenTmp? && t'.storers[i].pc.WriteTmp?
                      then t.creator[t'.storers[i].pc.fd := i] else t.creator)
  }

  ghost predicate LoaderMoves(t: System, i: nat, t': System)
  {
    && i < |t.loaders| == |t'.loaders|
    && t'.loaders == t.loaders[i := t'.loaders[i]]
    && t'.storers == t.storers && t'.creator == t.creator
    && LoaderStep(t.fs, t.loaders[i], t'.fs, t'.loaders[i])
  }

  ghost predicate Next(t: System, t': System)
  {
    || (exists i: nat :: StorerMoves(t, i, t'))
    || (exists i: nat :: LoaderMoves(t, i, t'))
  }

  /** Any disk content, including stale temporary files of earlier crashes, and
      any set of calls, also ones that share temporary names; only the
      temporary names are kept apart from the block names. */
  ghost predicate Init(t: System)
  {
    && t.creator == map[]
    && (forall p :: p in t.fs.names ==> t.fs.names[p] in t.fs.data)
    && (forall i :: 0 <= i < |t.storers| ==> t.storers[i].pc == Check)
    && (forall i :: 0 <= i < |t.loaders| ==> t.loaders[i].pc == OpenSource)
    && (forall i :: 0 <= i < |t.storers| ==> !IsTemp(t, t.storers[i].dest))
    && (forall i :: 0 <= i < |t.loaders| ==> !IsTemp(t, t.loaders[i].source))
  }

  ghost predicate IsTemp(t: System, p: Path) {
    exists i :: 0 <= i < |t.storers| && t.storers[i].tmp == p
  }

  ghost predicate IsRun(run: seq<System>)
  {
    && |run| > 0 && Init(run[0])
    && forall k :: 0 <= k < |run| - 1 ==> Next(run[k], run[k + 1])
  }

  // ----------------------------------------------------------- invariant

  /** `b` is what was at `p` at the start, or the whole buffer of a storer of `p`. */
  ghost predicate Complete(t0: System, p: Path, b: Bytes)
  {
    || (p in t0.fs.names && t0.fs.names[p] in t0.fs.data && b == t0.fs.data[t0.fs.names[p]])
    || exists i :: 0 <= i < |t0.storers| && t0.storers[i].dest == p && t0.storers[i].src == b
  }

  ghost predicate SameCalls(t0: System, t: System)
  {
    && |t.storers| == |t0.storers| && |t.loaders| == |t0.loaders|
    && (forall i :: 0 <= i < |t.storers| ==> t.storers[i] == t0.storers[i].(pc := t.storers[i].pc))
    && (forall i :: 0 <= i < |t.loaders| ==>
          t.loaders[i].source == t0.loaders[i].source && t.loaders[i].size == t0.loaders[i].size)
  }

  /** A storer past its open owns its temporary name and its inode. */
  ghost predicate StorerInv(t: System, i: nat)
    requires i < |t.storers|
  {
    var s := t.storers[i];
    s.pc.Holds() ==>
      && s.tmp in t.fs.names && t.fs.names[s.tmp] == s.pc.fd
      && s.pc.fd in t.creator && t.creator[s.pc.fd] == i
      && (forall p :: p in t.fs.names && t.fs.names[p] == s.pc.fd ==> p == s.tmp)
      && ((s.pc.CloseShort? || s.pc.UnlinkTmp?) ==> s.pc.errno != 0)
      && ((s.pc.CloseTmp? || s.pc.RenameTmp?) ==> s.pc.fd in t.fs.data && t.fs.data[s.pc.fd] == s.src)
  }

  ghost predicate LoaderInv(t0: System, t: System, i: nat)
    requires i < |t.loaders|
  {
    var l := t.loaders[i];
    && (l.pc.ReadSource? ==>
          && l.pc.fd in t.fs.data && Complete(t0, l.source, t.fs.data[l.pc.fd])
          && forall j :: 0 <= j < |t.storers| && t.storers[j].pc.Holds() ==> t.storers[j].pc.fd != l.pc.fd)
    && ((l.pc.CloseBad? || l.pc.UnlinkSource?) ==> l.pc.errno != 0)
    && ((l.pc.CloseSource? || l.pc == LoadReturned(0)) ==> LoadedWhole(t0, l))
  }

  /** The buffer is the first `size` bytes of one complete block. */
  ghost predicate LoadedWhole(t0: System, l: Loader) {
    exists b :: Complete(t0, l.source, b) && l.size <= |b| && l.buffer == b[..l.size]
  }

  /** The storer still owns the file, crashed, or could not unlink it. */
  ghost predicate Explains(s: Storer, p: Path, ino: Inode) {
    s.tmp == p && ((s.pc.Holds() && s.pc.fd == ino) || s.pc.Crashed? || (s.pc.Returned? && s.pc.leftTmp))
  }

  /** A temporary name is as it was at the start, or was created in this run by
      a storer that still owns it, crashed, or could not unlink it. */
  ghost predicate TempInv(t0: System, t: System, p: Path)
    requires p in t.fs.names
  {
    var ino := t.fs.names[p];
    if ino !in t.creator then p in t0.fs.names && t0.fs.names[p] == ino
    else t.creator[ino] < |t.storers| && Explains(t.storers[t.creator[ino]], p, ino)
  }

  ghost predicate Inv(t0: System, t: System)
  {
    && SameCalls(t0, t)
    && (forall p :: p in t.fs.names ==> t.fs.names[p] in t.fs.data)
    && (forall h :: h in t.creator ==> h in t.fs.data)
    && (forall i :: 0 <= i < |t.storers| ==> StorerInv(t, i))
    && (forall i :: 0 <= i < |t.loaders| ==> LoaderInv(t0, t, i))
    && (forall p :: p in t.fs.names && !IsTemp(t0, p) ==> Complete(t0, p, t.fs.data[t.fs.names[p]]))
    && (forall p :: p in t.fs.names && IsTemp(t0, p) ==> TempInv(t0, t, p))
  }

  lemma MoverKeepsItsFile(t0: System, t: System, i: nat, t': System)
    requires Init(t0) && Inv(t0, t) && StorerMoves(t, i, t')
    ensures StorerInv(t', i)
  {
    assert StorerInv(t, i);
    assert t0.storers[i].tmp == t.storers[i].tmp && t0.storers[i].dest == t.storers[i].dest;
  }

  lemma OthersKeepTheirFiles(t0: System, t: System, i: nat, t': System, j: nat)
    requires Init(t0) && Inv(t0, t) && StorerMoves(t, i, t') && j < |t'.storers| && j != i
    ensures StorerInv(t', j)
  {
    assert StorerInv(t, i) && StorerInv(t, j);
    assert t'.storers[j] == t.storers[j];
    assert t0.storers[i].tmp == t.storers[i].tmp && t0.storers[i].dest == t.storers[i].dest;
    assert t0.storers[j].tmp == t.storers[j].tmp;
  }

  lemma StorerKeepsLoaders(t0: System, t: System, i: nat, t': System)
    requires Init(t0) && Inv(t0, t) && StorerMoves(t, i, t')
    ensures forall j :: 0 <= j < |t'.loaders| ==> LoaderInv(t0, t', j)
  {
    forall j | 0 <= j < |t'.loaders| ensures LoaderInv(t0, t', j) {
      assert LoaderInv(t0, t, j);
    }
  }

  lemma StorerKeepsComplete(t0: System, t: System, i: nat, t': System, p: Path)
    requires Init(t0) && Inv(t0, t) && StorerMoves(t, i, t') && p in t'.fs.names
    ensures t'.fs.names[p] in t'.fs.data
    ensures !IsTemp(t0, p) ==> Complete(t0, p, t'.fs.data[t'.fs.names[p]])
  {
    assert StorerInv(t, i);
    assert t0.storers[i] == t.storers[i].(pc := t0.storers[i].pc);
  }

  lemma OwnerStays(fs: Fs, s: Storer, fs': Fs, s': Storer, p: Path)
    requires StorerStep(fs, s, fs', s') && p in fs.names && Explains(s, p, fs.names[p])
    requires s.dest != s.tmp && p in fs'.names && fs'.names[p] == fs.names[p]
    ensures Explains(s', p, fs.names[p])
  {
  }

  lemma CreatorStays(t: System, i: nat, t': System, ino: Inode)
    requires StorerMoves(t, i, t') && ino in t.fs.data
    ensures ino in t'.creator <==> ino in t.creator
    ensures ino in t.creator ==> t'.creator[ino] == t.creator[ino]
  {
  }

  lemma OldTempStays(t0: System, t: System, i: nat, t': System, p: Path)
    requires Init(t0) && Inv(t0, t) && StorerMoves(t, i, t') && IsTemp(t0, p)
    requires p in t.fs.names && p in t'.fs.names && t'.fs.names[p] == t.fs.names[p]
    ensures TempInv(t0, t', p)
  {
    var ino := t.fs.names[p];
    assert TempInv(t0, t, p);
    CreatorStays(t, i, t', ino);
    if ino in t.creator && t.creator[ino] == i {
      assert t0.storers[i].tmp == t.storers[i].tmp && t0.storers[i].dest == t.storers[i].dest;
      OwnerStays(t.fs, t.storers[i], t'.fs, t'.storers[i], p);
    }
  }

  lemma NewTempIsOwned(t0: System, t: System, i: nat, t': System, p: Path)
    requires Init(t0) && Inv(t0, t) && StorerMoves(t, i, t') && IsTemp(t0, p)
    requires p in t'.fs.names && (p in t.fs.names ==> t'.fs.names[p] != t.fs.names[p])
    ensures TempInv(t0, t', p)
  {
    assert StorerInv(t, i);
    assert t0.storers[i].tmp == t.storers[i].tmp && t0.storers[i].dest == t.storers[i].dest;
  }

  lemma StorerPreserves(t0: System, t: System, i: nat, t': System)
    requires Init(t0) && Inv(t0, t) && StorerMoves(t, i, t')
    ensures Inv(t0, t')
  {
    forall j | 0 <= j < |t'.storers| ensures StorerInv(t', j) {
      if j == i {
        MoverKeepsItsFile(t0, t, i, t');
      } else {
        OthersKeepTheirFiles(t0, t, i, t', j);
      }
    }
    StorerKeepsLoaders(t0, t, i, t');
    forall p | p in t'.fs.names
      ensures t'.fs.names[p] in t'.fs.data
      ensures !IsTemp(t0, p) ==> Complete(t0, p, t'.fs.data[t'.fs.names[p]])
      ensures IsTemp(t0, p) ==> TempInv(t0, t', p)
    {
      StorerKeepsComplete(t0, t, i, t', p);
      if IsTemp(t0, p) {
        if p in t.fs.names && t'.fs.names[p] == t.fs.names[p] {
          OldTempStays(t0, t, i, t', p);
        } else {
          NewTempIsOwned(t0, t, i, t', p);
        }
      }
    }
  }

  /** The file a loader opens is nobody's temporary file. */
  lemma SourceIsNoTemp(t0: System, t: System, i: nat, j: nat)
    requires Init(t0) && Inv(t0, t) && i < |t.loaders| && t.loaders[i].source in t.fs.names
    requires j < |t.storers| && t.storers[j].pc.Holds()
    ensures t.storers[j].pc.fd != t.fs.names[t.loaders[i].source]
  {
    assert t.loaders[i].source == t0.loaders[i].source;
    assert StorerInv(t, j) && t.storers[j].tmp == t0.storers[j].tmp;
  }

  lemma MoverKeepsItsLoad(t0: System, t: System, i: nat, t': System)
    requires Init(t0) && Inv(t0, t) && LoaderMoves(t, i, t')
    ensures LoaderInv(t0, t', i)
  {
    var l := t.loaders[i];
    assert LoaderInv(t0, t, i);
    assert l.source == t0.loaders[i].source;
    if l.source in t.fs.names {
      forall j | 0 <= j < |t.storers| && t.storers[j].pc.Holds()
        ensures t.storers[j].pc.fd != t.fs.names[l.source]
      {
        SourceIsNoTemp(t0, t, i, j);
      }
    }
    if l.pc.ReadSource? && t'.loaders[i].pc.CloseSource? {
      assert Complete(t0, l.source, t.fs.data[l.pc.fd]);
    }
  }

  lemma OthersKeepTheirLoads(t0: System, t: System, i: nat, t': System, j: nat)
    requires Init(t0) && Inv(t0, t) && LoaderMoves(t, i, t') && j < |t'.loaders| && j != i
    ensures LoaderInv(t0, t', j)
  {
    assert LoaderInv(t0, t, j);
    assert t'.loaders[j] == t.loaders[j];
  }

  lemma LoaderPreserves(t0: System, t: System, i: nat, t': System)
    requires Init(t0) && Inv(t0, t) && LoaderMoves(t, i, t')
    ensures Inv(t0, t')
  {
    forall j | 0 <= j < |t'.loaders| ensures LoaderInv(t0, t', j) {
      if j == i {
        MoverKeepsItsLoad(t0, t, i, t');
      } else {
        OthersKeepTheirLoads(t0, t, i, t', j);
      }
    }
    assert t.loaders[i].source == t0.loaders[i].source;
    forall j | 0 <= j < |t'.storers| ensures StorerInv(t', j) {
      assert StorerInv(t, j) && t.storers[j].tmp == t0.storers[j].tmp;
    }
    forall p | p in t'.fs.names && IsTemp(t0, p) ensures TempInv(t0, t', p) {
      assert TempInv(t0, t, p);
    }
  }

  lemma {:induction false} RunInv(run: seq<System>, k: nat)
    requires IsRun(run) && k < |run|
    ensures Inv(run[0], run[k])
  {
    if k > 0 {
      RunInv(run, k - 1);
      var t, t' := run[k - 1], run[k];
      assert Next(run[k - 1], run[k - 1 + 1]);
      if i: nat :| StorerMoves(t, i, t') {
        StorerPreserves(run[0], t, i, t');
      } else {
        var i: nat :| LoaderMoves(t, i, t');
        LoaderPreserves(run[0], t, i, t');
      }
    }
  }

  // ------------------------------------------------------------ theorems

  /** At every moment of every run, a file under a block name is complete. */
  lemma DestinationsAreComplete(run: seq<System>, k: nat, p: Path)
    requires IsRun(run) && k < |run|
    requires p in run[k].fs.names && !IsTemp(run[0], p)
    ensures run[k].fs.names[p] in run[k].fs.data
    ensures Complete(run[0], p, run[k].fs.data[run[k].fs.names[p]])
  {
    RunInv(run, k);
  }

  /** A load that returns 0 delivers the front of one complete block, whatever
      storers renamed or loaders unlinked while it was reading. */
  lemma LoadsAreWhole(run: seq<System>, k: nat, i: nat)
    requires IsRun(run) && k < |run| && i < |run[k].loaders|
    requires run[k].loaders[i].pc == LoadReturned(0)
    ensures LoadedWhole(run[0], run[k].loaders[i])
  {
    RunInv(run, k);
    assert LoaderInv(run[0], run[k], i);
  }

  lemma LoaderLeavesTemps(t0: System, t: System, i: nat, t': System, p: Path)
    requires Init(t0) && Inv(t0, t) && LoaderMoves(t, i, t') && IsTemp(t0, p)
    ensures p in t.fs.names <==> p in t'.fs.names
    ensures p in t.fs.names ==> t'.fs.names[p] == t.fs.names[p]
  {
    assert t.loaders[i].source == t0.loaders[i].source;
  }

  lemma StorerTouchesItsOwn(t0: System, t: System, i: nat, t': System, p: Path)
    requires Init(t0) && Inv(t0, t) && StorerMoves(t, i, t') && IsTemp(t0, p) && p in t.fs.names
    requires p !in t'.fs.names || t'.fs.names[p] != t.fs.names[p]
    ensures t.storers[i].tmp == p && (t.storers[i].pc.RenameTmp? || t.storers[i].pc.UnlinkTmp?)
    ensures t.storers[i].pc.fd == t.fs.names[p] && p !in t'.fs.names
    ensures t.fs.names[p] in t.creator && t.creator[t.fs.names[p]] == i
  {
    assert StorerInv(t, i);
    assert t.storers[i].dest == t0.storers[i].dest;
  }

  /** A step takes a temporary name away, or repoints it, only when it is the
      rename or unlink of the storer that created that file. */
  lemma OnlyTheCreatorTouchesATemp(run: seq<System>, k: nat, p: Path)
    requires IsRun(run) && k + 1 < |run|
    requires IsTemp(run[0], p) && p in run[k].fs.names
    requires p !in run[k + 1].fs.names || run[k + 1].fs.names[p] != run[k].fs.names[p]
    ensures exists i: nat ::
              && StorerMoves(run[k], i, run[k + 1])
              && run[k].storers[i].tmp == p
              && (run[k].storers[i].pc.RenameTmp? || run[k].storers[i].pc.UnlinkTmp?)
              && run[k].storers[i].pc.fd == run[k].fs.names[p]
              && run[k].fs.names[p] in run[k].creator && run[k].creator[run[k].fs.names[p]] == i
              && p !in run[k + 1].fs.names
  {
    RunInv(run, k);
    var t, t' := run[k], run[k + 1];
    assert Next(t, t');
    if i: nat :| StorerMoves(t, i, t') {
      StorerTouchesItsOwn(run[0], t, i, t', p);
    } else {
      var i: nat :| LoaderMoves(t, i, t');
      LoaderLeavesTemps(run[0], t, i, t', p);
    }
  }

  /** File contents change only by the write of the storer that created the
      file, and only while the file has no name but its temporary one. */
  lemma OnlyTheCreatorWrites(run: seq<System>, k: nat, ino: Inode)
    requires IsRun(run) && k + 1 < |run|
    requires ino in run[k].fs.data
    requires ino !in run[k + 1].fs.data || run[k + 1].fs.data[ino] != run[k].fs.data[ino]
    ensures ino in run[k].creator && run[k].creator[ino] < |run[k].storers|
    ensures run[k].storers[run[k].creator[ino]].pc == WriteTmp(ino)
    ensures forall p :: p in run[k].fs.names && run[k].fs.names[p] == ino ==> IsTemp(run[0], p)
  {
    RunInv(run, k);
    var t, t' := run[k], run[k + 1];
    assert Next(t, t');
    var i: nat :| StorerMoves(t, i, t');
    assert StorerInv(t, i);
    assert run[0].storers[i].tmp == t.storers[i].tmp;
  }

  lemma ReturningStorer(t0: System, t: System, i: nat, t': System)
    requires Init(t0) && Inv(t0, t) && StorerMoves(t, i, t') && t'.storers[i].pc == Returned(0, false)
    ensures t.storers[i].dest == t0.storers[i].dest && t.storers[i].dest in t'.fs.names
    ensures !t.storers[i].pc.Check? ==>
              var ino := t'.fs.names[t.storers[i].dest];
              ino in t'.fs.data && t'.fs.data[ino] == t.storers[i].src
  {
    assert StorerInv(t, i);
    assert t.storers[i].dest == t0.storers[i].dest;
  }

  /** The step in which a store returns 0 leaves a complete block at the
      destination: its own buffer when it renamed. */
  lemma StoreReturnsWithBlockPresent(run: seq<System>, k: nat, i: nat)
    requires IsRun(run) && k + 1 < |run| && i < |run[k].storers| && StorerMoves(run[k], i, run[k + 1])
    requires run[k + 1].storers[i].pc == Returned(0, false)
    ensures run[k].storers[i].dest in run[k + 1].fs.names
    ensures var ino := run[k + 1].fs.names[run[k].storers[i].dest];
            && ino in run[k + 1].fs.data
            && Complete(run[0], run[k].storers[i].dest, run[k + 1].fs.data[ino])
            && (!run[k].storers[i].pc.Check? ==> run[k + 1].fs.data[ino] == run[k].storers[i].src)
  {
    RunInv(run, k);
    ReturningStorer(run[0], run[k], i, run[k + 1]);
    DestinationsAreComplete(run, k + 1, run[k].storers[i].dest);
  }

  /** A store that has returned, without its unlink failing, has left no temporary
      file behind: whatever is under a temporary name is not a file it created. */
  lemma NoTempLeftBehind(run: seq<System>, k: nat, i: nat, p: Path)
    requires IsRun(run) && k < |run| && i < |run[k].storers|
    requires run[k].storers[i].pc.Returned? && !run[k].storers[i].pc.leftTmp
    requires IsTemp(run[0], p) && p in run[k].fs.names
    ensures run[k].fs.names[p] in run[k].creator ==> run[k].creator[run[k].fs.names[p]] != i
  {
    RunInv(run, k);
    assert TempInv(run[0], run[k], p);
  }

  /** Once every storer has returned so, the only temporary names left are those
      that were there before. */
  lemma OnlyOldTempsRemain(run: seq<System>, k: nat, p: Path)
    requires IsRun(run) && k < |run|
    requires forall i :: 0 <= i < |run[k].storers| ==>
               run[k].storers[i].pc.Returned? && !run[k].storers[i].pc.leftTmp
    requires IsTemp(run[0], p) && p in run[k].fs.names
    ensures p in run[0].fs.names && run[0].fs.names[p] == run[k].fs.names[p]
  {
    RunInv(run, k);
    assert TempInv(run[0], run[k], p);
  }

  // ----------------------------------- a stored block need not stay stored

  /** From step `k0` of the run on. */
  ghost predicate ThereFrom(run: seq<System>, k0: nat, p: Path) {
    forall k :: k0 <= k < |run| ==> p in run[k].fs.names
  }

  /** A load of the block that can still come to its unlink: one that has neither
      returned nor crashed. */
  predicate MayUnlink(l: Loader, p: Path) {
    l.source == p && !l.pc.LoadReturned? && !l.pc.LoadCrashed?
  }

  predicate NobodyLoads(t: System, p: Path) {
    forall i :: 0 <= i < |t.loaders| ==> !MayUnlink(t.loaders[i], p)
  }

  /** A storer takes no block name away: it unlinks its temporary name, and its
      rename only replaces what the block name stands for. */
  lemma StorerKeepsBlock(fs: Fs, s: Storer, fs': Fs, s': Storer, p: Path)
    requires StorerStep(fs, s, fs', s') && p in fs.names && p != s.tmp
    ensures p in fs'.names
  {
  }

  lemma LoaderKeepsBlock(fs: Fs, l: Loader, fs': Fs, l': Loader, p: Path)
    requires LoaderStep(fs, l, fs', l') && p in fs.names && p != l.source
    ensures p in fs'.names
  {
  }

  lemma LoaderStaysOver(fs: Fs, l: Loader, fs': Fs, l': Loader, p: Path)
    requires LoaderStep(fs, l, fs', l') && !MayUnlink(l, p)
    ensures !MayUnlink(l', p) && l.source != p
  {
  }

  lemma StepKeepsBlock(t0: System, t: System, t': System, p: Path)
    requires SameCalls(t0, t) && Next(t, t') && p in t.fs.names && !IsTemp(t0, p) && NobodyLoads(t, p)
    ensures p in t'.fs.names && NobodyLoads(t', p)
  {
    if i: nat :| StorerMoves(t, i, t') {
      assert t.storers[i].tmp == t0.storers[i].tmp;
      StorerKeepsBlock(t.fs, t.storers[i], t'.fs, t'.storers[i], p);
    } else {
      var i: nat :| LoaderMoves(t, i, t');
      LoaderStaysOver(t.fs, t.loaders[i], t'.fs, t'.loaders[i], p);
      LoaderKeepsBlock(t.fs, t.loaders[i], t'.fs, t'.loaders[i], p);
    }
  }

  lemma StaysOneStep(run: seq<System>, k: nat, p: Path)
    requires IsRun(run) && k + 1 < |run| && p in run[k].fs.names && !IsTemp(run[0], p) && NobodyLoads(run[k], p)
    ensures p in run[k + 1].fs.names && NobodyLoads(run[k + 1], p)
  {
    RunInv(run, k);
    assert Next(run[k], run[k + 1]);
    StepKeepsBlock(run[0], run[k], run[k + 1], p);
  }

  /** Whenever a block is on disk and nobody loads it, it stays from then on. */
  lemma {:induction false} StaysWithoutLoaders(run: seq<System>, k0: nat, k: nat, p: Path)
    requires IsRun(run) && k0 <= k < |run| && p in run[k0].fs.names && !IsTemp(run[0], p) && NobodyLoads(run[k0], p)
    ensures p in run[k].fs.names && NobodyLoads(run[k], p)
    decreases k - k0
  {
    if k0 < k {
      StaysOneStep(run, k0, p);
      StaysWithoutLoaders(run, k0 + 1, k, p);
    }
  }

  lemma OneMoreStep(run: seq<System>, t: System)
    requires IsRun(run) && Next(run[|run| - 1], t)
    ensures IsRun(run + [t])
  {
    var run' := run + [t];
    forall k | 0 <= k < |run'| - 1 ensures Next(run'[k], run'[k + 1]) {
      if k < |run| - 1 {
        assert Next(run[k], run[k + 1]);
      }
    }
  }

  function LoaderAt(t: System, i: nat, pc: LoadPc): System
    requires i < |t.loaders|
  {
    t.(loaders := t.loaders[i := t.loaders[i].(pc := pc)])
  }

  /** The run goes on with a step of loader `i` that leaves the disk alone. */
  lemma LoaderGoesOn(run: seq<System>, i: nat, pc: LoadPc) returns (run': seq<System>)
    requires IsRun(run) && i < |run[|run| - 1].loaders|
    requires var t := run[|run| - 1]; LoaderStep(t.fs, t.loaders[i], t.fs, t.loaders[i].(pc := pc))
    ensures IsRun(run') && run' == run + [LoaderAt(run[|run| - 1], i, pc)]
  {
    var t := run[|run| - 1];
    assert LoaderMoves(t, i, LoaderAt(t, i, pc));
    OneMoreStep(run, LoaderAt(t, i, pc));
    run' := run + [LoaderAt(t, i, pc)];
  }

  /** A load under way can fail its way to the unlink, wherever it is. */
  lemma ComesToUnlink(run: seq<System>, i: nat, p: Path) returns (run': seq<System>)
    requires IsRun(run) && i < |run[|run| - 1].loaders| && MayUnlink(run[|run| - 1].loaders[i], p)
    ensures IsRun(run') && run <= run' && i < |run'[|run'| - 1].loaders|
    ensures MayUnlink(run'[|run'| - 1].loaders[i], p) && run'[|run'| - 1].loaders[i].pc.UnlinkSource?
  {
    run' := run;
    RunInv(run, |run| - 1);
    var l := run[|run| - 1].loaders[i];
    assert LoaderInv(run[0], run[|run| - 1], i);
    match l.pc
    case UnlinkSource(_) =>
    case OpenSource => run' := LoaderGoesOn(run, i, UnlinkSource(5));
    case CloseSource => run' := LoaderGoesOn(run, i, UnlinkSource(5));
    case CloseBad(errno) => run' := LoaderGoesOn(run, i, UnlinkSource(errno));
    case ReadSource(_) =>
      run' := LoaderGoesOn(run, i, CloseBad(5));
      run' := LoaderGoesOn(run', i, UnlinkSource(5));
  }

  lemma LoadCanDelete(run: seq<System>, i: nat, p: Path) returns (run': seq<System>)
    requires IsRun(run) && i < |run[|run| - 1].loaders| && MayUnlink(run[|run| - 1].loaders[i], p)
    ensures IsRun(run') && run <= run' && p !in run'[|run'| - 1].fs.names
  {
    var mid := ComesToUnlink(run, i, p);
    var t := mid[|mid| - 1];
    var t' := LoaderAt(t, i, LoadReturned(t.loaders[i].pc.errno)).(fs := Unlinked(t.fs, p));
    assert LoaderMoves(t, i, t');
    OneMoreStep(mid, t');
    run' := mid + [t'];
  }

  /** At any moment of any run, a block on disk stays there however the run goes
      on, if and only if every load of it has returned or crashed: a loader unlinks
      its source after any failure, also after a failed open, whatever is there by
      then. */
  lemma StaysStoredIffNobodyLoads(run: seq<System>, p: Path)
    requires IsRun(run) && p in run[|run| - 1].fs.names && !IsTemp(run[0], p)
    ensures (forall longer: seq<System> :: IsRun(longer) && run <= longer ==> ThereFrom(longer, |run| - 1, p))
            <==> NobodyLoads(run[|run| - 1], p)
  {
    if NobodyLoads(run[|run| - 1], p) {
      forall longer: seq<System>, k | IsRun(longer) && run <= longer && |run| - 1 <= k < |longer|
        ensures p in longer[k].fs.names
      {
        StaysWithoutLoaders(longer, |run| - 1, k, p);
      }
    } else {
      var i :| 0 <= i < |run[|run| - 1].loaders| && MayUnlink(run[|run| - 1].loaders[i], p);
      var longer := LoadCanDelete(run, i, p);
      assert !ThereFrom(longer, |run| - 1, p);
    }
  }

  /** The race with a concrete store: the loader's open fails because the block
      is missing, the store then completes and returns 0, and the loader's
      cleanup deletes the fresh block. */
  lemma FreshBlockCanBeDeleted()
    ensures exists run: seq<System> ::
              && IsRun(run) && |run| == 9
              && run[7] == RaceState(7) && "b" in run[7].fs.names
              && run[8].storers == run[7].storers && "b" !in run[8].fs.names
    ensures RaceState(7).storers[0].pc == Returned(0, false)
  {
    var run := seq(9, k requires 0 <= k < 9 => RaceState(k));
    forall k | 0 <= k < |run| - 1 ensures Next(run[k], run[k + 1]) {
      RaceNext(k);
    }
    assert IsRun(run);
  }

  function RaceState(k: nat): (t: System)
    requires k < 9
    ensures |t.storers| == 1 && |t.loaders| == 1
  {
    var pc := if k < 2 then Check else if k == 2 then MakeDirs else if k == 3 then OpenTmp
              else if k == 4 then WriteTmp(0) else if k == 5 then CloseTmp(0)
              else if k == 6 then RenameTmp(0) else Returned(0, false);
    var fs := if k < 4 then Fs(map[], map[]) else if k == 4 then Fs(map["t" := 0], map[0 := []])
              else if k < 7 then Fs(map["t" := 0], map[0 := [1]])
              else if k == 7 then Fs(map["b" := 0], map[0 := [1]]) else Fs(map[], map[0 := [1]]);
    var loader := if k == 0 then OpenSource else if k < 8 then UnlinkSource(2) else LoadReturned(2);
    System(fs, [Storer("t", "b", [1], pc)], [Loader("b", 1, [], loader)], if k < 4 then map[] else map[0 := 0])
  }

  lemma RaceNext(k: nat)
    requires k < 8
    ensures Next(RaceState(k), RaceState(k + 1))
  {
    if k == 0 || k == 7 {
      assert RaceState(8).fs == Unlinked(RaceState(7).fs, "b");
      assert LoaderMoves(RaceState(k), 0, RaceState(k + 1));
    } else {
      assert Renamed(RaceState(6).fs, "t", "b") == RaceState(7).fs;
      assert StorerMoves(RaceState(k), 0, RaceState(k + 1));
    }
  }

  // ----------------------------------------------------------- crashes anywhere

  /** Wherever a storer or loader has got to, it may crash there, and the disk stays
      as it is at that moment. */
  lemma StorerMayCrash(run: seq<System>, i: nat) returns (run': seq<System>)
    requires IsRun(run) && i < |run[|run| - 1].storers| && run[|run| - 1].storers[i].pc.Live()
    ensures IsRun(run') && |run'| == |run| + 1 && run <= run'
    ensures run'[|run|].fs == run[|run| - 1].fs && i < |run'[|run|].storers| && run'[|run|].storers[i].pc == Crashed
  {
    var t := run[|run| - 1];
    var t' := t.(storers := t.storers[i := t.storers[i].(pc := Crashed)]);
    assert StorerMoves(t, i, t');
    OneMoreStep(run, t');
    run' := run + [t'];
  }

  lemma LoaderMayCrash(run: seq<System>, i: nat) returns (run': seq<System>)
    requires IsRun(run) && i < |run[|run| - 1].loaders|
    requires !run[|run| - 1].loaders[i].pc.LoadReturned? && !run[|run| - 1].loaders[i].pc.LoadCrashed?
    ensures IsRun(run') && |run'| == |run| + 1 && run <= run'
    ensures run'[|run|].fs == run[|run| - 1].fs && i < |run'[|run|].loaders| && run'[|run|].loaders[i].pc == LoadCrashed
  {
    run' := LoaderGoesOn(run, i, LoadCrashed);
  }
}
