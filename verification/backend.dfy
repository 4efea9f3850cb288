/** The cpuset directory cache, and the kernel's directory table behind it. */
module Backend {
  import opened Prelude
  import opened CpuText

  datatype ApplyOutcome =
    Applied | Exited | BlockedByCgroup | Downgraded | BlockedByPerm | Einval | Failed | SkippedNoCpus

  /**
   What the daemon did to the system, in order. An early return for a cached name says whether the
   directory existed. A reclaim says which directories were handed to rmdir, which of those are gone,
   and which directories tracked processes held at that moment.
   */
  datatype Io =
    | Mkdir(dir: string, ok: bool)
    | Cached(dir: string, there: bool)
    | Reclaim(handed: set<string>, removed: set<string>, held: set<string>)
    | SetAffinity(tid: int, mask: CpuSet)
    | Apply(pid: int, tid: int, dir: string, outcome: ApplyOutcome)

  /** The cache of ensured directories, the directories that exist, and the log. */
  datatype Store = Store(ensured: set<string>, disk: set<string>, log: seq<Io>)

  /** Making a directory: one already there counts as made. A cached name is not made again. */
  function Ensure(s: Store, dir: string, mkdirOk: bool): Store {
    if dir in s.ensured then s.(log := s.log + [Cached(dir, dir in s.disk)])
    else
      var ok := mkdirOk || dir in s.disk;
      Store(s.ensured + {dir}, if ok then s.disk + {dir} else s.disk, s.log + [Mkdir(dir, ok)])
  }

  /** Whether the last attempt to make a directory succeeded; None if there was none. */
  function LastMkdir(log: seq<Io>, dir: string): Option<bool> {
    if log == [] then None
    else
      match log[|log| - 1]
      case Mkdir(d, ok) => if d == dir then Some(ok) else LastMkdir(log[..|log| - 1], dir)
      case _ => LastMkdir(log[..|log| - 1], dir)
  }

  lemma LastMkdirSnoc(log: seq<Io>, io: Io, dir: string)
    ensures LastMkdir(log + [io], dir) == if io.Mkdir? && io.dir == dir then Some(io.ok) else LastMkdir(log, dir)
  {
    assert (log + [io])[..|log|] == log;
  }

  /** An early return found the directory there exactly if the last attempt before it to make it succeeded. */
  ghost predicate ReturnsTold(log: seq<Io>) {
    forall i :: 0 <= i < |log| && log[i].Cached? ==> LastMkdir(log[..i], log[i].dir) == Some(log[i].there)
  }

  /**
   The early return for a cached name is right exactly when the last attempt to make that directory
   succeeded: a cached directory exists, or making it failed and it was never retried.
   */
  ghost predicate Coherent(s: Store) {
    && (forall d :: d in s.ensured ==> LastMkdir(s.log, d) == Some(d in s.disk))
    && ReturnsTold(s.log)
  }

  lemma ToldSnoc(log: seq<Io>, io: Io)
    requires ReturnsTold(log) && (io.Cached? ==> LastMkdir(log, io.dir) == Some(io.there))
    ensures ReturnsTold(log + [io])
  {
    forall i | 0 <= i < |log + [io]| ensures (log + [io])[..i] == log[..i] {
    }
    assert log[..|log|] == log;
  }

  ghost predicate MkdirsSucceeded(log: seq<Io>) {
    forall i :: 0 <= i < |log| && log[i].Mkdir? ==> log[i].ok
  }

  lemma {:induction false} LastSucceeded(log: seq<Io>, dir: string)
    requires MkdirsSucceeded(log)
    ensures LastMkdir(log, dir) != Some(false)
  {
    if log != [] {
      LastSucceeded(log[..|log| - 1], dir);
    }
  }

  /** If making directories never fails, every cached directory exists. */
  lemma CachedDirsExist(s: Store)
    requires Coherent(s) && MkdirsSucceeded(s.log)
    ensures s.ensured <= s.disk
  {
    forall d | d in s.ensured ensures d in s.disk {
      LastSucceeded(s.log, d);
    }
  }

  /** If making directories never fails, every early return was right. */
  lemma ReturnsRight(log: seq<Io>)
    requires ReturnsTold(log) && MkdirsSucceeded(log)
    ensures forall i :: 0 <= i < |log| && log[i].Cached? ==> log[i].there
  {
    forall i | 0 <= i < |log| && log[i].Cached? ensures log[i].there {
      LastSucceeded(log[..i], log[i].dir);
    }
  }

  lemma EnsureCoherent(s: Store, dir: string, mkdirOk: bool)
    requires Coherent(s)
    ensures Coherent(Ensure(s, dir, mkdirOk))
  {
    var io := if dir in s.ensured then Cached(dir, dir in s.disk) else Mkdir(dir, mkdirOk || dir in s.disk);
    ToldSnoc(s.log, io);
    forall d { LastMkdirSnoc(s.log, io, d); }
  }

  /** A name not cached is tried once: the directory then exists if mkdir succeeds or it was there already. */
  lemma EnsureMeaning(s: Store, dir: string, mkdirOk: bool)
    ensures var t := Ensure(s, dir, mkdirOk);
            && dir in t.ensured && t.ensured - {dir} == s.ensured - {dir} && t.disk - {dir} == s.disk - {dir}
            && (dir in t.disk <==> dir in s.disk || (dir !in s.ensured && mkdirOk))
            && t.log == s.log + [if dir in s.ensured then Cached(dir, dir in s.disk) else Mkdir(dir, dir in t.disk)]
  {
  }

  /** Made once and in vain, a directory stays cached and missing. */
  lemma FailureIsCached(dir: string)
    ensures var s := Ensure(Store({}, {}, []), dir, false); dir in s.ensured && dir !in s.disk
    ensures var s := Ensure(Ensure(Store({}, {}, []), dir, false), dir, true);
            s.log == [Mkdir(dir, false), Cached(dir, false)]
  {
  }

  /** The directories that rmdir takes away. */
  function Removed(handed: set<string>, disk: set<string>, rmdirOk: string -> bool): set<string> {
    set d | d in handed && d in disk && rmdirOk(d)
  }

  /** Handing directories to rmdir: those it removes are forgotten by the cache as well. */
  function ReclaimDirs(s: Store, handed: set<string>, held: set<string>, rmdirOk: string -> bool): Store {
    var removed := Removed(handed, s.disk, rmdirOk);
    Store(s.ensured - removed, s.disk - removed, s.log + [Reclaim(handed, removed, held)])
  }

  lemma ReclaimCoherent(s: Store, handed: set<string>, held: set<string>, rmdirOk: string -> bool)
    requires Coherent(s)
    ensures Coherent(ReclaimDirs(s, handed, held, rmdirOk))
  {
    var t := ReclaimDirs(s, handed, held, rmdirOk);
    ToldSnoc(s.log, t.log[|s.log|]);
    forall d { LastMkdirSnoc(s.log, t.log[|s.log|], d); }
  }

  function Record(s: Store, io: Io): Store { s.(log := s.log + [io]) }

  lemma RecordCoherent(s: Store, io: Io)
    requires Coherent(s) && !io.Mkdir? && !io.Cached?
    ensures Coherent(Record(s, io))
  {
    ToldSnoc(s.log, io);
    forall d { LastMkdirSnoc(s.log, io, d); }
  }

  class CpusetBackend {
    var ensured: set<string>
    var disk: set<string>
    ghost var log: seq<Io>
    /** The directories handed to rmdir since the current reclaim began, and those of them it removed. */
    ghost var handed: set<string>
    ghost var removed: set<string>

    ghost function State(): Store
      reads this
    {
      Store(ensured, disk, log)
    }

    method EnsureDir(name: string, mkdirOk: bool)
      modifies this
      ensures State() == Ensure(old(State()), name, mkdirOk)
    {
      if name in ensured {
        log := log + [Cached(name, name in disk)];
        return;
      }
      ensured := ensured + {name};
      var ok := mkdirOk || name in disk;
      log := log + [Mkdir(name, ok)];
      if ok {
        disk := disk + {name};
      }
    }

    method ForgetCpusetDir(name: string)
      modifies this`ensured
      ensures ensured == old(ensured) - {name}
    {
      ensured := ensured - {name};
    }

    ghost method BeginReclaim()
      modifies this`handed, this`removed
      ensures handed == removed == {}
    {
      handed, removed := {}, {};
    }

    method RemoveDir(name: string, rmdirOk: bool) returns (ok: bool)
      modifies this`disk, this`handed, this`removed
      ensures ok <==> name in old(disk) && rmdirOk
      ensures disk == if ok then old(disk) - {name} else old(disk)
      ensures handed == old(handed) + {name}
      ensures removed == if ok then old(removed) + {name} else old(removed)
    {
      handed := handed + {name};
      ok := name in disk && rmdirOk;
      if ok {
        disk := disk - {name};
        removed := removed + {name};
      }
    }

    /** The affinity call; `answer` is the kernel's errno, None on success. */
    method SetAffinityOf(tid: int, mask: CpuSet, answer: Option<int>) returns (err: Option<int>)
      modifies this`log
      ensures err == answer
      ensures State() == Record(old(State()), SetAffinity(tid, mask))
    {
      log := log + [SetAffinity(tid, mask)];
      return answer;
    }

    ghost method Log(io: Io)
      modifies this`log
      ensures State() == Record(old(State()), io)
    {
      log := log + [io];
    }
  }
}
