/**
 The process tracker: per-process state, and reference counts on cpuset directories.
 Each method is proved to compute a function of the state before; the laws of the
 tracker are proved about those functions.
 */
module Tracker {
  import opened Backend

  const NAME_CACHE_TTL: int := 60

  /** Thread names of one process, read at most once between two refreshes. */
  datatype NameCache = NameCache(names: map<int, string>, lastFullRefresh: int)
  {
    function Refreshed(now: int): NameCache {
      if now - lastFullRefresh >= NAME_CACHE_TTL then NameCache(map[], now) else this
    }

    /** The cache after looking up `tid`; `read` is what the kernel would answer. */
    function Lookup(tid: int, now: int, read: string): NameCache {
      var c := Refreshed(now);
      if tid in c.names then c else c.(names := c.names[tid := read])
    }

    function Retain(tids: set<int>): NameCache {
      NameCache(map t | t in names && t in tids :: names[t], lastFullRefresh)
    }
  }

  datatype Proc = Proc(
    pkg: string,
    startTime: nat,
    scanned: bool,
    lastScan: int,
    appliedTids: set<int>,
    appliedDirs: set<string>,
    names: NameCache)

  function NewProc(startTime: nat, pkg: string, now: int): Proc {
    Proc(pkg, startTime, false, 0, {}, {}, NameCache(map[], now))
  }

  type Procs = map<int, Proc>
  type Refs = map<string, nat>

  /** The tracker and everything it drives. */
  datatype World = World(procs: Procs, refs: Refs, store: Store)

  /** The start times read while entering a process (0 when unreadable), and what rmdir would answer. */
  datatype EnterIo = EnterIo(firstRead: nat, secondRead: nat, rmdirOk: string -> bool)

  // ---------- what the operations do ----------

  /** Directories whose last reference goes away with `dirs`. */
  function LastHeld(refs: Refs, dirs: set<string>): set<string> {
    set d | d in dirs && d != "" && d in refs && refs[d] <= 1
  }

  function Dropped(refs: Refs, dirs: set<string>): Refs {
    map d | d in refs && d !in LastHeld(refs, dirs) :: if d in dirs && d != "" then refs[d] - 1 else refs[d]
  }

  /** The directories that some tracked process holds. */
  function HeldDirs(procs: Procs): set<string> {
    set p, d | p in procs && d in procs[p].appliedDirs :: d
  }

  function AfterRelease(w: World, dirs: set<string>, rmdirOk: string -> bool): World {
    World(w.procs, Dropped(w.refs, dirs), ReclaimDirs(w.store, LastHeld(w.refs, dirs), HeldDirs(w.procs), rmdirOk))
  }

  function AfterRemove(w: World, pid: int, rmdirOk: string -> bool): World {
    if pid in w.procs then AfterRelease(w.(procs := w.procs - {pid}), w.procs[pid].appliedDirs, rmdirOk) else w
  }

  datatype Action = Fast | Exec | Reuse | New

  /** Whether a process is as before, has a new image, took over a dead process's id, or is unknown. */
  function ActionOf(procs: Procs, pid: int, pkg: string, io: EnterIo): Action {
    if pid !in procs then New
    else if procs[pid].pkg == pkg || procs[pid].startTime == 0 then Fast
    else if io.firstRead == 0 || io.firstRead == procs[pid].startTime then Exec
    else Reuse
  }

  function AfterEnter(w: World, pid: int, pkg: string, now: int, io: EnterIo): (w': World)
    ensures pid in w'.procs
  {
    match ActionOf(w.procs, pid, pkg, io)
    case Fast => w
    case Exec => w.(procs := w.procs[pid := w.procs[pid].(pkg := pkg)])
    case Reuse =>
      var r := AfterRemove(w, pid, io.rmdirOk);
      r.(procs := r.procs[pid := NewProc(io.secondRead, pkg, now)])
    case New => w.(procs := w.procs[pid := NewProc(io.firstRead, pkg, now)])
  }

  function NewDirs(p: Proc, dirs: seq<string>): set<string> {
    set d | d in dirs && d != "" && d !in p.appliedDirs
  }

  function Counted(refs: Refs, dirs: set<string>): Refs {
    map d | d in refs.Keys + dirs :: (if d in refs then refs[d] else 0) + (if d in dirs then 1 else 0)
  }

  function AfterRegister(w: World, pid: int, dirs: seq<string>): World {
    if pid !in w.procs then w
    else
      var p := w.procs[pid];
      var add := NewDirs(p, dirs);
      World(w.procs[pid := p.(appliedDirs := p.appliedDirs + add)], Counted(w.refs, add), w.store)
  }

  function AfterRemoveTid(w: World, pid: int, tid: int): World {
    if pid !in w.procs then w
    else w.(procs := w.procs[pid := w.procs[pid].(appliedTids := w.procs[pid].appliedTids - {tid})])
  }

  /** Removing processes one after the other, each with its own rmdir answers. */
  function RemoveAll(w: World, order: seq<int>, rmdirOk: int -> string -> bool): World {
    if order == [] then w
    else
      var last := order[|order| - 1];
      AfterRemove(RemoveAll(w, order[..|order| - 1], rmdirOk), last, rmdirOk(last))
  }

  // ---------- the laws ----------

  function Holders(procs: Procs, dir: string): set<int> {
    set p | p in procs && dir in procs[p].appliedDirs
  }

  /** The count of a directory is the number of tracked processes that hold it; no count is zero. */
  ghost predicate CountsMatch(procs: Procs, refs: Refs) {
    forall d :: (d in refs <==> Holders(procs, d) != {}) && (d in refs ==> refs[d] == |Holders(procs, d)|)
  }

  ghost predicate NoEmptyNames(procs: Procs) {
    forall p :: p in procs ==> "" !in procs[p].appliedDirs
  }

  /** Directories are handed to rmdir only at a moment when no tracked process holds them. */
  ghost predicate ReclaimsUnheld(log: seq<Io>) {
    forall i :: 0 <= i < |log| && log[i].Reclaim? ==> log[i].handed !! log[i].held
  }

  /** The mask of every affinity call is non-empty. */
  ghost predicate MasksNonEmpty(log: seq<Io>) {
    forall i :: 0 <= i < |log| && log[i].SetAffinity? ==> log[i].mask != {}
  }

  ghost predicate StoreOk(s: Store) {
    Coherent(s) && ReclaimsUnheld(s.log) && MasksNonEmpty(s.log)
  }

  /** Every held directory has been ensured and not reclaimed since, when cpusets are in use. */
  ghost predicate HeldEnsured(refs: Refs, s: Store, cpusets: bool) {
    cpusets ==> refs.Keys <= s.ensured
  }

  ghost predicate Inv(w: World, cpusets: bool) {
    CountsMatch(w.procs, w.refs) && NoEmptyNames(w.procs) && StoreOk(w.store) && HeldEnsured(w.refs, w.store, cpusets)
  }

  lemma HoldersRemove(procs: Procs, pid: int, d: string)
    requires pid in procs
    ensures Holders(procs - {pid}, d) == Holders(procs, d) - {pid}
    ensures pid in Holders(procs, d) <==> d in procs[pid].appliedDirs
    ensures |Holders(procs - {pid}, d)| == |Holders(procs, d)| - if d in procs[pid].appliedDirs then 1 else 0
  {
    assert Holders(procs - {pid}, d) == Holders(procs, d) - {pid};
  }

  /** The subtraction on release never goes below zero, and releasing keeps counts equal to holders. */
  lemma ReleaseCounts(procs: Procs, refs: Refs, pid: int)
    requires CountsMatch(procs, refs) && NoEmptyNames(procs) && pid in procs
    ensures forall d :: d in procs[pid].appliedDirs ==> d in refs && refs[d] >= 1
    ensures CountsMatch(procs - {pid}, Dropped(refs, procs[pid].appliedDirs))
    ensures forall d :: d in LastHeld(refs, procs[pid].appliedDirs) <==>
      d in procs[pid].appliedDirs && Holders(procs - {pid}, d) == {}
  {
    hide Holders, HeldDirs;
    var dirs, left := procs[pid].appliedDirs, procs - {pid};
    forall d
      ensures d in dirs ==> d in refs && refs[d] >= 1
      ensures d in LastHeld(refs, dirs) <==> d in dirs && Holders(left, d) == {}
      ensures d in Dropped(refs, dirs) <==> Holders(left, d) != {}
      ensures d in Dropped(refs, dirs) ==> Dropped(refs, dirs)[d] == |Holders(left, d)|
    {
      HoldersRemove(procs, pid, d);
      assert d in refs <==> Holders(procs, d) != {};
    }
  }

  lemma NotHeld(procs: Procs, d: string)
    ensures Holders(procs, d) == {} <==> d !in HeldDirs(procs)
  {
    SomeMember(Holders(procs, d));
    if d in HeldDirs(procs) {
      var p :| p in procs && d in procs[p].appliedDirs;
      assert p in Holders(procs, d);
    }
  }

  lemma LogSnoc(s: Store, io: Io)
    requires ReclaimsUnheld(s.log) && MasksNonEmpty(s.log)
    requires io.Reclaim? ==> io.handed !! io.held
    requires io.SetAffinity? ==> io.mask != {}
    ensures ReclaimsUnheld(s.log + [io]) && MasksNonEmpty(s.log + [io])
  {
  }

  lemma RemoveInv(w: World, pid: int, rmdirOk: string -> bool, cpusets: bool)
    requires Inv(w, cpusets)
    ensures Inv(AfterRemove(w, pid, rmdirOk), cpusets)
  {
    if pid in w.procs {
      hide CountsMatch, Coherent, ReclaimsUnheld, MasksNonEmpty, Holders;
      var dirs := w.procs[pid].appliedDirs;
      ReleaseCounts(w.procs, w.refs, pid);
      var handed, held := LastHeld(w.refs, dirs), HeldDirs(w.procs - {pid});
      var t := ReclaimDirs(w.store, handed, held, rmdirOk);
      ReclaimCoherent(w.store, handed, held, rmdirOk);
      forall d | d in handed ensures d !in held {
        NotHeld(w.procs - {pid}, d);
      }
      LogSnoc(w.store, t.log[|w.store.log|]);
    }
  }

  lemma EnterInv(w: World, pid: int, pkg: string, now: int, io: EnterIo, cpusets: bool)
    requires Inv(w, cpusets)
    ensures Inv(AfterEnter(w, pid, pkg, now, io), cpusets)
  {
    hide Inv, AfterRemove;
    var a := ActionOf(w.procs, pid, pkg, io);
    if a == Exec {
      SameDirs(w, pid, w.procs[pid].(pkg := pkg), cpusets);
    } else if a == New {
      FreshProc(w, pid, NewProc(io.firstRead, pkg, now), cpusets);
    } else if a == Reuse {
      RemoveInv(w, pid, io.rmdirOk, cpusets);
      RemoveGone(w, pid, io.rmdirOk);
      FreshProc(AfterRemove(w, pid, io.rmdirOk), pid, NewProc(io.secondRead, pkg, now), cpusets);
    }
  }

  lemma RemoveGone(w: World, pid: int, rmdirOk: string -> bool)
    ensures AfterRemove(w, pid, rmdirOk).procs == w.procs - {pid}
  {
  }

  /** Changing anything but a process's directories keeps the laws. */
  lemma SameDirs(w: World, pid: int, p: Proc, cpusets: bool)
    requires Inv(w, cpusets) && pid in w.procs && p.appliedDirs == w.procs[pid].appliedDirs
    ensures Inv(w.(procs := w.procs[pid := p]), cpusets)
  {
    forall d ensures Holders(w.procs[pid := p], d) == Holders(w.procs, d) {
    }
  }

  lemma FreshProc(w: World, pid: int, p: Proc, cpusets: bool)
    requires Inv(w, cpusets) && pid !in w.procs && p.appliedDirs == {}
    ensures Inv(w.(procs := w.procs[pid := p]), cpusets)
  {
    forall d ensures Holders(w.procs[pid := p], d) == Holders(w.procs, d) {
    }
  }

  lemma HoldersRegister(procs: Procs, pid: int, add: set<string>, d: string)
    requires pid in procs && add !! procs[pid].appliedDirs
    ensures var procs' := procs[pid := procs[pid].(appliedDirs := procs[pid].appliedDirs + add)];
            && Holders(procs', d) == (if d in add then Holders(procs, d) + {pid} else Holders(procs, d))
            && |Holders(procs', d)| == |Holders(procs, d)| + if d in add then 1 else 0
  {
    var procs' := procs[pid := procs[pid].(appliedDirs := procs[pid].appliedDirs + add)];
    assert pid in Holders(procs, d) <==> d in procs[pid].appliedDirs;
    assert Holders(procs', d) == if d in add then Holders(procs, d) + {pid} else Holders(procs, d);
  }

  lemma RegisterInv(w: World, pid: int, dirs: seq<string>, cpusets: bool)
    requires Inv(w, cpusets)
    requires cpusets ==> forall d :: d in dirs && d != "" ==> d in w.store.ensured
    ensures Inv(AfterRegister(w, pid, dirs), cpusets)
  {
    if pid in w.procs {
      var add := NewDirs(w.procs[pid], dirs);
      CountRegister(w.procs, w.refs, pid, add);
    }
  }

  lemma CountRegister(procs: Procs, refs: Refs, pid: int, add: set<string>)
    requires CountsMatch(procs, refs) && pid in procs && add !! procs[pid].appliedDirs
    ensures CountsMatch(procs[pid := procs[pid].(appliedDirs := procs[pid].appliedDirs + add)], Counted(refs, add))
  {
    hide Holders;
    forall d { HoldersRegister(procs, pid, add, d); }
  }

  lemma {:induction false} RemoveAllInv(w: World, order: seq<int>, rmdirOk: int -> string -> bool, cpusets: bool)
    requires Inv(w, cpusets)
    ensures Inv(RemoveAll(w, order, rmdirOk), cpusets)
  {
    if order != [] {
      var last := order[|order| - 1];
      RemoveAllInv(w, order[..|order| - 1], rmdirOk, cpusets);
      RemoveInv(RemoveAll(w, order[..|order| - 1], rmdirOk), last, rmdirOk(last), cpusets);
    }
  }

  lemma SomeMember(s: set<int>)
    ensures s == {} || exists p :: p in s
  {
    if forall p :: p !in s {
      assert s == {};
    }
  }

  function Elements(order: seq<int>): set<int> { set p | p in order }

  lemma ElementsSnoc(order: seq<int>, p: int)
    ensures Elements(order + [p]) == Elements(order) + {p}
  {
  }

  /** Whatever the order and the rmdir answers, exactly the named processes are gone. */
  lemma {:induction false} RemoveAllProcs(w: World, order: seq<int>, rmdirOk: int -> string -> bool)
    ensures RemoveAll(w, order, rmdirOk).procs == w.procs - Elements(order)
  {
    if order != [] {
      var n := |order| - 1;
      RemoveAllProcs(w, order[..n], rmdirOk);
      assert order == order[..n] + [order[n]];
      ElementsSnoc(order[..n], order[n]);
      RemoveGone(RemoveAll(w, order[..n], rmdirOk), order[n], rmdirOk(order[n]));
    }
  }

  /** After entering a process, entering it again with the same package changes nothing. */
  lemma EnterTwice(w: World, pid: int, pkg: string, now: int, io: EnterIo, again: EnterIo)
    ensures ActionOf(AfterEnter(w, pid, pkg, now, io).procs, pid, pkg, again) == Fast
  {
  }

  /**
   What entering a process means. It is then known under the given package, unless it was known under
   another one and its start time could not be read when it was first seen. What was applied to it is
   forgotten exactly when it is new, or its id was taken over: it has another package and another
   start time, both known.
   */
  lemma EnterMeaning(w: World, pid: int, pkg: string, now: int, io: EnterIo)
    ensures var w' := AfterEnter(w, pid, pkg, now, io);
            var p := w'.procs[pid];
            && w'.procs - {pid} == w.procs - {pid}
            && (p.pkg != pkg <==> pid in w.procs && w.procs[pid].pkg != pkg && w.procs[pid].startTime == 0)
            && (if pid in w.procs && (w.procs[pid].pkg == pkg || io.firstRead == 0 || w.procs[pid].startTime == 0
                                      || io.firstRead == w.procs[pid].startTime)
                then p == w.procs[pid].(pkg := p.pkg) && w'.refs == w.refs && w'.store == w.store
                else p == Proc(pkg, if pid in w.procs then io.secondRead
                  else io.firstRead, false, 0, {}, {}, NameCache(map[], now)))
  {
    hide AfterRemove;
    RemoveGone(w, pid, io.rmdirOk);
  }

  /** When another process takes over the id, the old one's directories are given up as if it had ended. */
  lemma ReuseReleases(w: World, pid: int, pkg: string, now: int, io: EnterIo)
    requires pid in w.procs && w.procs[pid].pkg != pkg && w.procs[pid].startTime != 0
    requires io.firstRead != 0 && io.firstRead != w.procs[pid].startTime
    ensures var w', gone := AfterEnter(w, pid, pkg, now, io), AfterRemove(w, pid, io.rmdirOk);
            w'.refs == gone.refs && w'.store == gone.store
  {
  }

  // ---------- what the other operations mean ----------

  /** The directories that this process holds and no other. */
  ghost function HeldAlone(procs: Procs, pid: int): set<string>
    requires pid in procs
  {
    set d | d in procs[pid].appliedDirs && Holders(procs, d) == {pid}
  }

  /**
   A process leaves the tracker. The directories that it alone held lose their count and are handed to
   rmdir, those and no others; the ones that rmdir removes leave disk and cache.
   */
  ghost predicate Left(w: World, w': World, pid: int, rmdirOk: string -> bool) {
    && w'.procs == w.procs - {pid}
    && (pid in w.procs ==>
         var alone := HeldAlone(w.procs, pid);
         var removed := set d | d in alone && d in w.store.disk && rmdirOk(d);
         && w'.refs.Keys == w.refs.Keys - alone
         && w'.store.log == w.store.log + [Reclaim(alone, removed, HeldDirs(w'.procs))]
         && w'.store.disk == w.store.disk - removed && w'.store.ensured == w.store.ensured - removed)
    && (pid !in w.procs ==> w' == w)
  }

  lemma RemoveLeaves(w: World, pid: int, rmdirOk: string -> bool)
    requires CountsMatch(w.procs, w.refs) && NoEmptyNames(w.procs)
    ensures Left(w, AfterRemove(w, pid, rmdirOk), pid, rmdirOk)
  {
    if pid in w.procs {
      hide Dropped, LastHeld, Holders, HeldDirs;
      ReleaseCounts(w.procs, w.refs, pid);
      var dirs, alone := w.procs[pid].appliedDirs, HeldAlone(w.procs, pid);
      forall d ensures d in LastHeld(w.refs, dirs) <==> d in alone {
        HoldersRemove(w.procs, pid, d);
        assert Holders(w.procs, d) - {pid} == {} <==> Holders(w.procs, d) <= {pid};
      }
      assert LastHeld(w.refs, dirs) == alone;
      DroppedKeys(w.refs, dirs);
    } else {
      assert w.procs - {pid} == w.procs;
    }
  }

  lemma DroppedKeys(refs: Refs, dirs: set<string>)
    ensures Dropped(refs, dirs).Keys == refs.Keys - LastHeld(refs, dirs)
  {
  }

  /** Each listed directory with a name is held afterwards, and counted once more if it was not held before. */
  lemma RegisterMeaning(w: World, pid: int, dirs: seq<string>)
    requires pid in w.procs
    ensures var w' := AfterRegister(w, pid, dirs);
            var added := set d | d in dirs && d != "" && d !in w.procs[pid].appliedDirs;
            && w'.procs == w.procs[pid := w.procs[pid].(appliedDirs := w.procs[pid].appliedDirs + added)]
            && w'.refs.Keys == w.refs.Keys + added && w'.store == w.store
            && forall d :: d in w'.refs ==>
                 w'.refs[d] == (if d in w.refs then w.refs[d] else 0) + if d in added then 1 else 0
  {
  }

  /** The end of a thread: it no longer counts as treated, and nothing else changes. */
  lemma ThreadLeaves(w: World, pid: int, tid: int)
    ensures var w' := AfterRemoveTid(w, pid, tid);
            && w'.procs.Keys == w.procs.Keys && w'.refs == w.refs && w'.store == w.store
            && (forall q :: q in w.procs && q != pid ==> w'.procs[q] == w.procs[q])
            && (pid in w.procs ==>
                 && w'.procs[pid].(appliedTids := {}) == w.procs[pid].(appliedTids := {})
                 && forall t :: t in w'.procs[pid].appliedTids <==> t in w.procs[pid].appliedTids && t != tid)
  {
  }

  /** A name less than 60 s old is taken from the cache; any other is read, and cached from then on. */
  lemma LookupMeaning(c: NameCache, tid: int, now: int, read: string)
    ensures var young, c' := now - c.lastFullRefresh < 60, c.Lookup(tid, now, read);
            && tid in c'.names && c'.names[tid] == (if young && tid in c.names then c.names[tid] else read)
            && c'.lastFullRefresh == (if young then c.lastFullRefresh else now)
            && (forall t :: t != tid ==> (t in c'.names <==> young && t in c.names))
            && (forall t :: t != tid && t in c'.names ==> c'.names[t] == c.names[t])
  {
  }

  /** A process first seen without a start time keeps the name "zygote" after it has become com.a. */
  lemma OldNameKept(io: EnterIo, store: Store)
    ensures var w := World(map[7 := NewProc(0, "zygote", 0)], map[], store);
            AfterEnter(w, 7, "com.a", 1, io).procs[7].pkg == "zygote"
  {
    EnterMeaning(World(map[7 := NewProc(0, "zygote", 0)], map[], store), 7, "com.a", 1, io);
  }

  // ---------- the tracker object ----------

  class StateTracker {
    var procs: Procs
    var refs: Refs

    constructor ()
      ensures procs == map[] && refs == map[]
    {
      procs, refs := map[], map[];
    }

    ghost function State(backend: CpusetBackend): World
      reads this, backend
    {
      World(procs, refs, backend.State())
    }

    /** The loop over the directories of a process that is gone. */
    method ReleaseState(dirs: set<string>, rmdirOk: string -> bool, backend: CpusetBackend)
      modifies this`refs, backend
      ensures State(backend) == AfterRelease(old(State(backend)), dirs, rmdirOk)
    {
      hide Dropped, LastHeld, Removed, HeldDirs;
      var todo := dirs;
      ghost var refs0, s0 := refs, backend.State();
      backend.BeginReclaim();
      NothingReleased(refs0, s0.disk, rmdirOk);
      assert dirs - todo == {};
      while todo != {}
        invariant todo <= dirs
        invariant refs == Dropped(refs0, dirs - todo)
        invariant backend.log == s0.log
        invariant backend.handed == LastHeld(refs0, dirs - todo)
        invariant backend.removed == Removed(backend.handed, s0.disk, rmdirOk)
        invariant backend.disk == s0.disk - backend.removed && backend.ensured == s0.ensured - backend.removed
        decreases todo
      {
        var dir :| dir in todo;
        DropOne(refs0, dirs - todo, dir);
        ghost var before := backend.handed;
        RemovedOne(before, s0.disk, rmdirOk, dir);
        assert dirs - (todo - {dir}) == (dirs - todo) + {dir};
        todo := todo - {dir};
        ReleaseDir(dir, rmdirOk(dir), backend);
        assert backend.handed == before || backend.handed == before + {dir};
      }
      assert dirs - todo == dirs;
      backend.Log(Reclaim(backend.handed, backend.removed, HeldDirs(procs)));
    }

    /** One directory of a process that is gone: the last reference takes the directory with it. */
    method ReleaseDir(dir: string, rmdirOk: bool, backend: CpusetBackend)
      modifies this`refs, backend
      ensures refs == if dir == "" || dir !in old(refs) then old(refs)
                      else if old(refs)[dir] <= 1 then old(refs) - {dir}
                      else old(refs)[dir := old(refs)[dir] - 1]
      ensures var handed := if dir != "" && dir in old(refs) && old(refs)[dir] <= 1 then {dir} else {};
              var removed := if rmdirOk && dir in old(backend.disk) then handed else {};
              && backend.handed == old(backend.handed) + handed && backend.removed == old(backend.removed) + removed
              && backend.disk == old(backend.disk) - removed && backend.ensured == old(backend.ensured) - removed
      ensures backend.log == old(backend.log)
    {
      if dir == "" {
        return;
      }
      if dir in refs {
        var n := if refs[dir] > 0 then refs[dir] - 1 else 0;
        refs := refs[dir := n];
        if n == 0 {
          refs := refs - {dir};
          var removed := backend.RemoveDir(dir, rmdirOk);
          if removed {
            backend.ForgetCpusetDir(dir);
          }
        }
      }
    }

    method Remove(pid: int, rmdirOk: string -> bool, backend: CpusetBackend) returns (removed: bool)
      modifies this, backend
      ensures State(backend) == AfterRemove(old(State(backend)), pid, rmdirOk)
      ensures removed <==> pid in old(procs)
    {
      if pid !in procs {
        return false;
      }
      var state := procs[pid];
      procs := procs - {pid};
      ReleaseState(state.appliedDirs, rmdirOk, backend);
      return true;
    }

    method Enter(pid: int, pkg: string, now: int, io: EnterIo, backend: CpusetBackend)
      modifies this, backend
      ensures State(backend) == AfterEnter(old(State(backend)), pid, pkg, now, io)
    {
      hide AfterRelease;
      match ActionOf(procs, pid, pkg, io) {
        case Fast =>
        case Exec => procs := procs[pid := procs[pid].(pkg := pkg)];
        case Reuse =>
          var state := procs[pid];
          procs := procs - {pid};
          ReleaseState(state.appliedDirs, io.rmdirOk, backend);
          procs := procs[pid := NewProc(io.secondRead, pkg, now)];
        case New => procs := procs[pid := NewProc(io.firstRead, pkg, now)];
      }
    }

    method RemoveTid(pid: int, tid: int, ghost backend: CpusetBackend)
      modifies this`procs
      ensures State(backend) == AfterRemoveTid(old(State(backend)), pid, tid)
    {
      if pid in procs {
        procs := procs[pid := procs[pid].(appliedTids := procs[pid].appliedTids - {tid})];
      }
    }

    /** The loop over the directories a process used: each counts once per process. */
    method RegisterDirs(pid: int, dirs: seq<string>, ghost backend: CpusetBackend)
      modifies this
      ensures State(backend) == AfterRegister(old(State(backend)), pid, dirs)
    {
      if pid !in procs {
        return;
      }
      ghost var w0 := State(backend);
      ghost var p := procs[pid];
      RegisterNone(w0, pid);
      for i := 0 to |dirs|
        invariant pid in procs
        invariant State(backend) == AfterRegister(w0, pid, dirs[..i])
      {
        var d := dirs[i];
        RegisterOne(w0, pid, dirs[..i], d);
        assert dirs[..i + 1] == dirs[..i] + [d];
        if d == "" {
          continue;
        }
        var state := procs[pid];
        if d !in state.appliedDirs {
          procs := procs[pid := state.(appliedDirs := state.appliedDirs + {d})];
          refs := refs[d := (if d in refs then refs[d] else 0) + 1];
        }
      }
      assert dirs[..|dirs|] == dirs;
    }

    /** The processes whose package is no longer listed, in some order, are removed. */
    method RetainInterested(pkgs: set<string>, rmdirOk: int -> string -> bool, backend: CpusetBackend)
      returns (ghost order: seq<int>)
      modifies this, backend
      ensures State(backend) == RemoveAll(old(State(backend)), order, rmdirOk)
      ensures procs == map p | p in old(procs) && old(procs)[p].pkg in pkgs :: old(procs)[p]
    {
      var stale := set p | p in procs && procs[p].pkg !in pkgs;
      order := [];
      assert Elements([]) == {};
      ghost var w0 := State(backend);
      var todo := stale;
      while todo != {}
        invariant todo <= stale && Elements(order) == stale - todo
        invariant State(backend) == RemoveAll(w0, order, rmdirOk)
        decreases todo
      {
        SomeMember(todo);
        var pid :| pid in todo;
        todo := todo - {pid};
        assert (order + [pid])[..|order|] == order;
        ElementsSnoc(order, pid);
        var _ := Remove(pid, rmdirOk(pid), backend);
        order := order + [pid];
      }
      RemoveAllProcs(w0, order, rmdirOk);
    }
  }

  lemma RegisterNone(w: World, pid: int)
    ensures AfterRegister(w, pid, []) == w
  {
    if pid in w.procs {
      assert NewDirs(w.procs[pid], []) == {};
      assert Counted(w.refs, {}) == w.refs;
      assert w.procs[pid].appliedDirs + {} == w.procs[pid].appliedDirs;
      assert w.procs[pid := w.procs[pid]] == w.procs;
    }
  }

  lemma RegisterOne(w: World, pid: int, dirs: seq<string>, d: string)
    requires pid in w.procs
    ensures var before, after := AfterRegister(w, pid, dirs), AfterRegister(w, pid, dirs + [d]);
            pid in before.procs &&
            var p := before.procs[pid];
            after == if d == "" || d in p.appliedDirs then before
                     else World(before.procs[pid := p.(appliedDirs := p.appliedDirs + {d})],
                                before.refs[d := (if d in before.refs then before.refs[d] else 0) + 1], before.store)
  {
    var p := w.procs[pid];
    var a, b := NewDirs(p, dirs), NewDirs(p, dirs + [d]);
    if d == "" || d in p.appliedDirs + a {
      assert a == b;
    } else {
      assert b == a + {d};
      var counted := Counted(w.refs, a);
      assert Counted(w.refs, b) == counted[d := (if d in counted then counted[d] else 0) + 1];
      assert p.appliedDirs + b == p.appliedDirs + a + {d};
    }
  }

  lemma NothingReleased(refs: Refs, disk: set<string>, rmdirOk: string -> bool)
    ensures Dropped(refs, {}) == refs && LastHeld(refs, {}) == {} && Removed({}, disk, rmdirOk) == {}
  {
  }

  lemma RemovedOne(handed: set<string>, disk: set<string>, rmdirOk: string -> bool, dir: string)
    requires dir !in handed
    ensures var before := Removed(handed, disk, rmdirOk);
            && Removed(handed + {dir}, disk, rmdirOk) == before + (if dir in disk && rmdirOk(dir) then {dir} else {})
            && dir !in before && before <= disk
  {
  }

  lemma DropOne(refs: Refs, done: set<string>, dir: string)
    requires dir !in done
    ensures dir !in LastHeld(refs, done)
    ensures var cur := Dropped(refs, done);
            Dropped(refs, done + {dir}) ==
              if dir == "" || dir !in cur then cur else if cur[dir] <= 1 then cur - {dir} else cur[dir := cur[dir] - 1]
    ensures LastHeld(refs, done + {dir}) ==
      LastHeld(refs, done) +
      if dir != "" && dir in Dropped(refs, done) && Dropped(refs, done)[dir] <= 1 then {dir} else {}
  {
  }
}
