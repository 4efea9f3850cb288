/**
 Which cpuset directories outlive their users. A directory is made before the daemon learns
 that the thread is gone, and rmdir may refuse: only then can a directory stay that no tracked
 process holds.
 */
module Reclaim {
  import opened Prelude
  import opened CpuText
  import opened Patterns
  import opened Rules
  import opened Merge
  import opened RuleSets
  import opened RuleOrder
  import opened Backend
  import opened ThreadPolicy
  import opened Tracker
  import opened Engine

  /** A thread the directory was made for is gone or has no usable CPU, or rmdir refuses the directory. */
  predicate Excuses(io: Io, d: string) {
    || (io.Apply? && io.dir == d && (io.outcome == Exited || io.outcome == SkippedNoCpus))
    || (io.Reclaim? && d in io.handed && d !in io.removed)
  }

  predicate Removes(io: Io, d: string) { io.Reclaim? && d in io.removed }

  /** There was an excuse since the directory was last removed. */
  predicate Excused(log: seq<Io>, d: string) {
    if log == [] then false
    else
      var io := log[|log| - 1];
      !Removes(io, d) && (Excuses(io, d) || Excused(log[..|log| - 1], d))
  }

  lemma ExcusedSnoc(log: seq<Io>, io: Io, d: string)
    ensures Excused(log + [io], d) <==> !Removes(io, d) && (Excuses(io, d) || Excused(log, d))
  {
    assert (log + [io])[..|log|] == log;
  }

  /** Every cached directory is counted, excused, or waits to be registered. */
  ghost predicate AccountedBut(refs: Refs, s: Store, waiting: seq<string>) {
    forall d :: d in s.ensured ==> d in refs || Excused(s.log, d) || (d in waiting && d != "")
  }

  ghost predicate Accounted(w: World) { AccountedBut(w.refs, w.store, []) }

  // ---------- one application ----------

  lemma EffectsExcuse(s: Store, tid: int, p: Policy, topo: CpuTopology, io: ThreadIo, d: string)
    ensures var t := Effects(s, tid, p, topo, io);
            && (Excused(t.log, d) <==> Excused(s.log, d))
            && (d in t.ensured ==> d in s.ensured || (d == p.cpusetDir && d != ""))
  {
    hide MaskSet, Excused;
    ExcusedSnoc(s.log, Mkdir(p.cpusetDir, io.mkdirOk || p.cpusetDir in s.disk), d);
    ExcusedSnoc(s.log, Cached(p.cpusetDir, p.cpusetDir in s.disk), d);
    var s1 := if p.cpus != {} && UsesCpusets(topo) && p.cpusetDir != "" then Ensure(s, p.cpusetDir, io.mkdirOk) else s;
    var mask := MaskSet(p.cpus, topo, io);
    if mask.Some? {
      ExcusedSnoc(s1.log, SetAffinity(tid, mask.value), d);
    }
  }

  /** The directory of an application is excused if nobody will register it. */
  lemma ApplyAccounted(refs: Refs, s: Store, waiting: seq<string>, pid: int, tid: int, p: Policy, c: Setting,
                       io: ThreadIo)
    requires AccountedBut(refs, s, waiting)
    ensures var o, t := Outcome(p, c.topo, c.rtAllowed, io), AfterApply(s, pid, tid, p, c, io);
            AccountedBut(refs, t, if o == Exited || o == SkippedNoCpus then waiting else waiting + [p.cpusetDir])
  {
    hide Effects, Outcome, Excused;
    var o, t := Outcome(p, c.topo, c.rtAllowed, io), Effects(s, tid, p, c.topo, io);
    var after := AfterApply(s, pid, tid, p, c, io);
    forall d ensures (Excused(s.log, d) ==> Excused(after.log, d))
      && (d in after.ensured ==> d in s.ensured || (d == p.cpusetDir && d != ""))
      && (o == Exited || o == SkippedNoCpus ==> Excused(after.log, p.cpusetDir))
    {
      ExcusedSnoc(t.log, Apply(pid, tid, p.cpusetDir, o), p.cpusetDir);
      EffectsExcuse(s, tid, p, c.topo, io, d);
      ExcusedSnoc(t.log, Apply(pid, tid, p.cpusetDir, o), d);
    }
  }

  // ---------- a scan ----------

  lemma {:induction false} ScanAccounted(refs: Refs, acc: ScanState, tids: seq<int>, pid: int, pkg: string, now: int,
                                         c: Setting, a: Answers)
    requires AccountedBut(refs, acc.store, acc.dirs)
    ensures var scan := ScanTids(acc, tids, pid, pkg, now, c, a); AccountedBut(refs, scan.store, scan.dirs)
  {
    hide AccountedBut, AfterApply, Outcome, Resolved, ThreadRules, NamesAfter, NameOf;
    if tids != [] {
      var n := |tids| - 1;
      ScanAccounted(refs, acc, tids[..n], pid, pkg, now, c, a);
      var before := ScanTids(acc, tids[..n], pid, pkg, now, c, a);
      var name := NameOf(before.names, tids[n], now, a.threadName(tids[n]), ThreadRules(c.rules, c.fnmatch, pkg));
      var r := Resolved(c.rules, c.fnmatch, pkg, name);
      if r.Some? {
        ApplyAccounted(refs, before.store, before.dirs, pid, tids[n], r.value, c, a.thread(n));
        OnceIsEnough(refs, AfterApply(before.store, pid, tids[n], r.value, c, a.thread(n)), before.dirs,
          r.value.cpusetDir);
      }
    }
  }

  lemma OnceIsEnough(refs: Refs, s: Store, waiting: seq<string>, d: string)
    ensures d in waiting && AccountedBut(refs, s, waiting + [d]) ==> AccountedBut(refs, s, waiting)
  {
  }

  // ---------- the tracker's steps ----------

  /** Registering counts what waits; nothing stays uncounted because of an earlier registration. */
  lemma RegisterAccounted(w: World, pid: int, dirs: seq<string>)
    requires CountsMatch(w.procs, w.refs) && pid in w.procs && AccountedBut(w.refs, w.store, dirs)
    ensures Accounted(AfterRegister(w, pid, dirs))
  {
    hide Excused;
    forall d: string | d in w.procs[pid].appliedDirs ensures d in w.refs {
      assert pid in Holders(w.procs, d);
    }
  }

  lemma RemoveAccounted(w: World, pid: int, rmdirOk: string -> bool)
    requires Accounted(w)
    ensures Accounted(AfterRemove(w, pid, rmdirOk))
  {
    hide Excused;
    if pid in w.procs {
      var dirs := w.procs[pid].appliedDirs;
      var t := AfterRemove(w, pid, rmdirOk);
      assert t.store.log == w.store.log + [t.store.log[|w.store.log|]];
      forall d { ExcusedSnoc(w.store.log, t.store.log[|w.store.log|], d); }
    }
  }

  lemma EnterAccounted(w: World, pid: int, pkg: string, now: int, io: EnterIo)
    requires Accounted(w)
    ensures Accounted(AfterEnter(w, pid, pkg, now, io))
  {
    hide Excused, AfterRemove, ActionOf;
    RemoveAccounted(w, pid, io.rmdirOk);
  }

  // ---------- the engine's steps ----------

  lemma FullScanAccounted(w: World, pid: int, pkg: string, now: int, c: Setting, a: Answers)
    requires Inv(w, Cpusets(c)) && Accounted(w)
    ensures Accounted(AfterScan(w, pid, pkg, now, c, a)) && Accounted(AfterFullScan(w, pid, pkg, now, c, a))
  {
    hide ScanTids, AfterEnter, CountsMatch, StoreOk, Excused;
    EnterAccounted(w, pid, pkg, now, a.enter);
    var entered := AfterEnter(w, pid, pkg, now, a.enter);
    ScanAccounted(entered.refs, ScanState(entered.procs[pid].names, 0, [], entered.store), a.tids, pid, pkg, now, c, a);
    RefreshInv(w, pid, pkg, now, c, a);
    hide AccountedBut, AfterRegister;
    RegisterAccounted(AfterRefresh(w, pid, pkg, now, c, a), pid, ScanOf(w, pid, pkg, now, c, a).dirs);
  }

  lemma SingleAccounted(w: World, pid: int, pkg: string, tid: int, now: int, c: Setting, a: Answers)
    requires Inv(w, Cpusets(c)) && Accounted(w)
    ensures Accounted(AfterSingle(w, pid, pkg, tid, now, c, a).0)
  {
    hide AfterEnter, CountsMatch, StoreOk, Excused, AccountedBut, Resolved, AfterApply, Outcome, ThreadRules,
      NamesAfter,
      NameOf, AfterRegister;
    EnterAccounted(w, pid, pkg, now, a.enter);
    EnterInv(w, pid, pkg, now, a.enter, Cpusets(c));
    var e := AfterEnter(w, pid, pkg, now, a.enter);
    var p := e.procs[pid];
    var withThreads := ThreadRules(c.rules, c.fnmatch, pkg);
    var name := NameOf(p.names, tid, now, a.threadName(tid), withThreads);
    var names := NamesAfter(p.names, tid, now, a.threadName(tid), withThreads);
    var noted := p.(names := names, appliedTids := p.appliedTids + {tid});
    SameDirs(e, pid, noted, Cpusets(c));
    var r := Resolved(c.rules, c.fnmatch, pkg, name);
    if r.Some? {
      var store := AfterApply(e.store, pid, tid, r.value, c, a.thread(0));
      ApplyAccounted(e.refs, e.store, [], pid, tid, r.value, c, a.thread(0));
      assert [] + [r.value.cpusetDir] == [r.value.cpusetDir];
      var o := Outcome(r.value, c.topo, c.rtAllowed, a.thread(0));
      if tid !in p.appliedTids && o != Exited && o != SkippedNoCpus {
        RegisterAccounted(World(e.procs[pid := noted], e.refs, store), pid, [r.value.cpusetDir]);
      }
    }
  }

  lemma EventAccounted(w: World, ev: ProcessEvent, now: int, c: Setting, a: Answers)
    requires Inv(w, Cpusets(c)) && Accounted(w)
    ensures Accounted(AfterEvent(w, ev, now, c, a).0)
  {
    hide Inv, AccountedBut, AfterRemove, AfterSingle, AfterFullScan, Interested, ScanOf;
    var pkg, gone := PkgOf(ev, a), AfterRemove(w, ev.pid, a.enter.rmdirOk);
    RemoveInv(w, ev.pid, a.enter.rmdirOk, Cpusets(c));
    RemoveAccounted(w, ev.pid, a.enter.rmdirOk);
    SingleAccounted(w, ev.pid, pkg, ev.tid, now, c, a);
    FullScanAccounted(w, ev.pid, pkg, now, c, a);
    FullScanAccounted(gone, ev.pid, pkg, now, c, a);
  }

  lemma {:induction false} EventsAccounted(w: World, evs: seq<ProcessEvent>, now: int, c: Setting,
                                           answers: nat -> Answers)
    requires Inv(w, Cpusets(c)) && Accounted(w)
    ensures Accounted(AfterEvents(w, evs, now, c, answers).0)
  {
    hide Inv, Accounted, AfterEvent;
    if evs != [] {
      var n := |evs| - 1;
      EventsInv(w, evs[..n], now, c, answers);
      EventsAccounted(w, evs[..n], now, c, answers);
      EventAccounted(AfterEvents(w, evs[..n], now, c, answers).0, evs[n], now, c, answers(n));
    }
  }

  lemma {:induction false} RelockAccounted(w: World, order: seq<int>, now: int, c: Setting, io: int -> RelockIo)
    requires Inv(w, Cpusets(c)) && Accounted(w)
    ensures Accounted(AfterRelock(w, order, now, c, io).0)
  {
    hide Inv, Accounted, AfterRemove, AfterScan, ScanOf;
    if order != [] {
      var n := |order| - 1;
      RelockInv(w, order[..n], now, c, io);
      RelockAccounted(w, order[..n], now, c, io);
      var before, p := AfterRelock(w, order[..n], now, c, io).0, order[n];
      if p in before.procs {
        RemoveAccounted(before, p, io(p).answers.enter.rmdirOk);
        FullScanAccounted(before, p, before.procs[p].pkg, now, c, io(p).answers);
      }
    }
  }

  lemma {:induction false} DropAccounted(w: World, gone: seq<int>, rmdirOk: int -> string -> bool)
    requires Accounted(w)
    ensures Accounted(RemoveAll(w, gone, rmdirOk))
  {
    hide Accounted, AfterRemove;
    if gone != [] {
      var n := |gone| - 1;
      DropAccounted(w, gone[..n], rmdirOk);
      RemoveAccounted(RemoveAll(w, gone[..n], rmdirOk), gone[n], rmdirOk(gone[n]));
    }
  }

  // ---------- every run ----------

  lemma {:induction false} RunAccounted(steps: seq<Step>, fnmatch: Fnmatch, topo: CpuTopology, disk: set<string>)
    ensures Accounted(AfterRun(Start(disk), steps, fnmatch, topo))
  {
    hide Inv, AccountedBut, AfterEvents, AfterRelock, RemoveAll;
    if steps == [] {
      StartAccounted(disk);
    } else {
      var n := |steps| - 1;
      RunInv(steps[..n], fnmatch, topo, disk);
      RunAccounted(steps[..n], fnmatch, topo, disk);
      var w := AfterRun(Start(disk), steps[..n], fnmatch, topo);
      match steps[n] {
        case Events(evs, now, rules, rt, answers) =>
          EventsAccounted(w, evs, now, Setting(rules, fnmatch, topo, rt), answers);
        case Relock(order, now, rules, rt, io) =>
          RelockAccounted(w, order, now, Setting(rules, fnmatch, topo, rt), io);
        case Drop(gone, rmdirOk) => DropAccounted(w, gone, rmdirOk);
      }
    }
  }

  lemma StartAccounted(disk: set<string>)
    ensures Accounted(Start(disk))
  {
  }

  /**
   At the end of every run a directory the daemon made and no tracked process holds is explained: since
   it was last removed, a thread it was made for was gone or had no usable CPU, or rmdir refused.
   */
  lemma UnheldIsExcused(steps: seq<Step>, fnmatch: Fnmatch, topo: CpuTopology, disk: set<string>, d: string)
    ensures var w := AfterRun(Start(disk), steps, fnmatch, topo);
            d in w.store.ensured && Holders(w.procs, d) == {} ==> Excused(w.store.log, d)
  {
    hide AfterRun, Excused, StoreOk;
    RunInv(steps, fnmatch, topo, disk);
    RunAccounted(steps, fnmatch, topo, disk);
  }

  // ---------- an input ----------

  /** Removing a process leaves every directory alone that it does not hold. */
  lemma NotHeldStays(w: World, pid: int, rmdirOk: string -> bool, d: string)
    requires pid in w.procs ==> d !in w.procs[pid].appliedDirs
    ensures var w' := AfterRemove(w, pid, rmdirOk);
            && (d in w'.store.disk <==> d in w.store.disk) && (d in w'.store.ensured <==> d in w.store.ensured)
  {
  }

  /** A thread that turns out to be gone after its directory has been made, which was neither cached nor counted. */
  ghost predicate GoneTooLate(w: World, pid: int, p: Policy, c: Setting, io: ThreadIo)
    requires pid in w.procs
  {
    && Cpusets(c) && io.mkdirOk && p.cpus != {} && Outcome(p, c.topo, c.rtAllowed, io) == Exited
    && p.cpusetDir !in w.store.ensured && p.cpusetDir !in w.refs && p.cpusetDir !in w.procs[pid].appliedDirs
  }

  /**
   Such a thread leaves the new directory behind: it is on disk and cached, nobody is counted for it,
   and the end of the process does not reclaim it.
   */
  lemma ExitedLeavesDir(w: World, pid: int, tid: int, now: int, c: Setting, a: Answers, p: Policy,
                        rmdirOk: string -> bool)
    requires pid in w.procs && tid !in w.procs[pid].appliedTids
    ensures var pkg := w.procs[pid].pkg;
            var name := NameOf(w.procs[pid].names, tid, now, a.threadName(tid), ThreadRules(c.rules, c.fnmatch, pkg));
            var w' := AfterSingle(w, pid, pkg, tid, now, c, a).0;
            var gone := AfterRemove(w', pid, rmdirOk);
            var d := p.cpusetDir;
            Resolved(c.rules, c.fnmatch, pkg, name) == Some(p) && GoneTooLate(w, pid, p, c, a.thread(0)) ==>
              && d in w'.store.disk && d in w'.store.ensured && d !in w'.refs
              && d in gone.store.disk && d in gone.store.ensured && d !in gone.refs
  {
    hide ThreadRules, Resolved, NameOf, NamesAfter, MaskSet, Outcome;
    var pkg := w.procs[pid].pkg;
    var name := NameOf(w.procs[pid].names, tid, now, a.threadName(tid), ThreadRules(c.rules, c.fnmatch, pkg));
    if Resolved(c.rules, c.fnmatch, pkg, name) == Some(p) && GoneTooLate(w, pid, p, c, a.thread(0)) {
      ResolvedDir(c.rules, c.fnmatch, pkg, name);
      NotHeldStays(AfterSingle(w, pid, pkg, tid, now, c, a).0, pid, rmdirOk, p.cpusetDir);
    }
  }

  /** An app with nothing but CPU 0 for all its threads. */
  lemma PinnedApp(fnmatch: Fnmatch, thread: string)
    ensures var r := Resolved([CompiledRule("app", "", true, PinTo(0))], fnmatch, "app", thread);
            r.Some? && r.value.cpus == {0} && r.value.cpusetDir == RangeString({0})
  {
    hide RangeString, Layered, FlatMap, PatternsOf, Best;
    var r := CompiledRule("app", "", true, PinTo(0));
    var hit := Hit(r.policy, PackageExact);
    PinCpus();
    NoPatterns();
    assert !ContainsWildcard("app");
    PatternsSnoc([], r);
    assert [] + [r] == [r] && Winner([r], fnmatch, "app") == None;
    FlatMapOne(Picker("app", PackageExact, ThreadHit(fnmatch, thread)), r);
    FlatMapOne(Picker("app", PackageExact, PackageLevel), r);
    assert PackageLevel(r) && ExactPart([r], "app", PackageLevel) == [hit] && [hit] + [] == [hit];
    assert ThreadHits([r], fnmatch, "app", thread) == [] && PackageHits([r], fnmatch, "app") == [hit];
    ResolvedIsLayered([r], fnmatch, "app", thread);
    OneHit(hit);
    ResolvedDir([r], fnmatch, "app", thread);
  }

  const TOPOLOGY := CpuTopology({}, true, 3)

  lemma TooLate(w: World, pid: int, p: Policy, c: Setting, io: ThreadIo)
    requires w.store == Store({}, {}, []) && w.refs == map[] && pid in w.procs && w.procs[pid].appliedDirs == {}
    requires p.cpus != {} && c.topo == TOPOLOGY && io == ThreadIo(true, None, None, Some(ESRCH), None, false, None)
    ensures GoneTooLate(w, pid, p, c, io)
  {
  }

  /** Thread 8 of the app, which has process id 7, ends between its creation and the affinity call. */
  lemma ThreadGone(fnmatch: Fnmatch, a: Answers, rmdirOk: string -> bool)
    requires a.thread(0) == ThreadIo(true, None, None, Some(ESRCH), None, false, None)
    ensures var c := Setting([CompiledRule("app", "", true, PinTo(0))], fnmatch, TOPOLOGY, false);
            var w := World(map[7 := Proc("app", 1, true, 0, {}, {}, NameCache(map[], 0))], map[], Store({}, {}, []));
            var gone := AfterRemove(AfterSingle(w, 7, "app", 8, 1, c, a).0, 7, rmdirOk);
            var d := RangeString({0});
            7 !in gone.procs && d in gone.store.disk && d in gone.store.ensured && d !in gone.refs
  {
    var c := Setting([CompiledRule("app", "", true, PinTo(0))], fnmatch, TOPOLOGY, false);
    var names := NameCache(map[], 0);
    var w := World(map[7 := Proc("app", 1, true, 0, {}, {}, names)], map[], Store({}, {}, []));
    var name := NameOf(names, 8, 1, a.threadName(8), ThreadRules(c.rules, c.fnmatch, "app"));
    PinnedApp(fnmatch, name);
    hide *;
    var p := Resolved(c.rules, c.fnmatch, "app", name).value;
    TooLate(w, 7, p, c, a.thread(0));
    ExitedLeavesDir(w, 7, 8, 1, c, a, p, rmdirOk);
    RemoveGone(AfterSingle(w, 7, "app", 8, 1, c, a).0, 7, rmdirOk);
  }
}
