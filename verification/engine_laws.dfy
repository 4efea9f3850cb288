/**
 What every event, relock and scan does, told by its results: who is tracked, whose directories
 are given back, which threads are treated and which policies applied.
 */
module EngineLaws {
  import opened Prelude
  import opened RuleSets
  import opened Backend
  import opened ThreadPolicy
  import opened Rules
  import opened Tracker
  import opened Engine

  // ---------- names of threads ----------

  /** The name a thread is matched under: none without thread rules, a cached one for 60 s, else the one just read. */
  function NameFor(cache: NameCache, now: int, tid: int, a: Answers, threadRules: bool): string {
    if !threadRules then ""
    else if now - cache.lastFullRefresh < 60 && tid in cache.names then cache.names[tid]
    else a.threadName(tid)
  }

  /** One thread's lookup does not change under which name any thread is matched. */
  lemma NameStays(cache: NameCache, now: int, tid: int, a: Answers, threadRules: bool, t: int)
    ensures var after := NamesAfter(cache, tid, now, a.threadName(tid), threadRules);
            && NameFor(after, now, t, a, threadRules) == NameFor(cache, now, t, a, threadRules)
            && NameOf(cache, tid, now, a.threadName(tid), threadRules) == NameFor(cache, now, tid, a, threadRules)
            && (threadRules ==> tid in after.names && after.names[tid] == NameFor(cache, now, tid, a, threadRules)
                                && now - after.lastFullRefresh < 60)
            && (threadRules && now - cache.lastFullRefresh < 60 ==> cache.names.Keys <= after.names.Keys)
  {
  }

  // ---------- a scan ----------

  /** The policy of the k-th listed thread, under the name it has at the start of the scan. */
  ghost function PolicyAt(cache: NameCache, k: nat, pkg: string, now: int, c: Setting, a: Answers): Option<Policy>
    requires k < |a.tids|
  {
    var name := NameFor(cache, now, a.tids[k], a, ThreadRules(c.rules, c.fnmatch, pkg));
    Resolved(c.rules, c.fnmatch, pkg, name)
  }

  /** The k-th thread gets a policy, and is neither gone nor without usable CPUs. */
  ghost predicate CountedAt(cache: NameCache, k: nat, pkg: string, now: int, c: Setting, a: Answers)
    requires k < |a.tids|
  {
    var p := PolicyAt(cache, k, pkg, now, c, a);
    p.Some? && Outcome(p.value, c.topo, c.rtAllowed, a.thread(k)) !in {Exited, SkippedNoCpus}
  }

  /** One of the first n threads is counted with this directory. */
  ghost predicate UsedDir(cache: NameCache, n: nat, pkg: string, now: int, c: Setting, a: Answers, d: string)
    requires n <= |a.tids|
  {
    exists k :: 0 <= k < n && CountedAt(cache, k, pkg, now, c, a) &&
      PolicyAt(cache, k, pkg, now, c, a).value.cpusetDir == d
  }

  /** The positions of the counted ones among the first n threads. */
  ghost function Counted(cache: NameCache, n: nat, pkg: string, now: int, c: Setting, a: Answers): set<nat>
    requires n <= |a.tids|
  {
    set k: nat | k < n && CountedAt(cache, k, pkg, now, c, a)
  }

  /** The applications recorded in a log. */
  function Applied(log: seq<Io>): seq<Io> {
    if log == [] then [] else Applied(log[..|log| - 1]) + if log[|log| - 1].Apply? then [log[|log| - 1]] else []
  }

  /** One application for each of the first n threads that has a policy, in the order listed. */
  ghost function Expected(cache: NameCache, n: nat, pid: int, pkg: string, now: int, c: Setting, a: Answers): seq<Io>
    requires n <= |a.tids|
  {
    if n == 0 then []
    else
      var k := n - 1;
      Expected(cache, k, pid, pkg, now, c, a) +
      match PolicyAt(cache, k, pkg, now, c, a)
      case None => []
      case Some(p) => [Apply(pid, a.tids[k], p.cpusetDir, Outcome(p, c.topo, c.rtAllowed, a.thread(k)))]
  }

  lemma AppliedSnoc(log: seq<Io>, io: Io)
    ensures Applied(log + [io]) == if io.Apply? then Applied(log) + [io] else Applied(log)
  {
    assert (log + [io])[..|log|] == log;
  }

  lemma EffectsApply(s: Store, tid: int, p: Policy, topo: CpuTopology, io: ThreadIo)
    ensures Applied(Effects(s, tid, p, topo, io).log) == Applied(s.log)
  {
    hide Applied, MaskSet;
    AppliedSnoc(s.log, Mkdir(p.cpusetDir, io.mkdirOk || p.cpusetDir in s.disk));
    AppliedSnoc(s.log, Cached(p.cpusetDir, p.cpusetDir in s.disk));
    var s1 := if p.cpus != {} && UsesCpusets(topo) && p.cpusetDir != "" then Ensure(s, p.cpusetDir, io.mkdirOk) else s;
    var mask := MaskSet(p.cpus, topo, io);
    if mask.Some? {
      AppliedSnoc(s1.log, SetAffinity(tid, mask.value));
    }
  }

  lemma ApplyApplies(s: Store, pid: int, tid: int, p: Policy, c: Setting, io: ThreadIo)
    ensures Applied(AfterApply(s, pid, tid, p, c, io).log) ==
      Applied(s.log) + [Apply(pid, tid, p.cpusetDir, Outcome(p, c.topo, c.rtAllowed, io))]
  {
    hide Applied, Effects, Outcome;
    EffectsApply(s, tid, p, c.topo, io);
    AppliedSnoc(Effects(s, tid, p, c.topo, io).log, Apply(pid, tid, p.cpusetDir, Outcome(p, c.topo, c.rtAllowed, io)));
  }

  /** The first n threads have been scanned. */
  ghost predicate Scanned(start: ScanState, acc: ScanState, n: nat, pid: int, pkg: string, now: int, c: Setting,
                          a: Answers)
    requires n <= |a.tids|
  {
    var withThreads := ThreadRules(c.rules, c.fnmatch, pkg);
    && (forall t :: NameFor(acc.names, now, t, a, withThreads) == NameFor(start.names, now, t, a, withThreads))
    && (withThreads ==> forall k :: 0 <= k < n ==> a.tids[k] in acc.names.names)
    && (withThreads && n > 0 ==> now - acc.names.lastFullRefresh < 60)
    && (!withThreads || n == 0 ==> acc.names == start.names)
    && acc.applied == start.applied + |Counted(start.names, n, pkg, now, c, a)|
    && (forall d :: d in acc.dirs <==> d in start.dirs || UsedDir(start.names, n, pkg, now, c, a, d))
    && Applied(acc.store.log) == Applied(start.store.log) + Expected(start.names, n, pid, pkg, now, c, a)
  }

  lemma {:induction false} ScanMeaning(start: ScanState, n: nat, pid: int, pkg: string, now: int, c: Setting,
                                       a: Answers)
    requires n <= |a.tids|
    ensures Scanned(start, ScanTids(start, a.tids[..n], pid, pkg, now, c, a), n, pid, pkg, now, c, a)
  {
    hide Resolved, ThreadRules, Outcome, Applied, AfterApply, NameFor, NameOf, NamesAfter;
    if n == 0 {
      assert Counted(start.names, n, pkg, now, c, a) == {};
    } else {
      var k := n - 1;
      ScanMeaning(start, k, pid, pkg, now, c, a);
      assert a.tids[..n][..k] == a.tids[..k];
      ScanStep(start, ScanTids(start, a.tids[..k], pid, pkg, now, c, a), k, pid, pkg, now, c, a);
    }
  }

  lemma ScanStep(start: ScanState, acc: ScanState, k: nat, pid: int, pkg: string, now: int, c: Setting, a: Answers)
    requires k < |a.tids|
    ensures Scanned(start, acc, k, pid, pkg, now, c, a) ==>
      Scanned(start, ScanOne(acc, k, pid, a.tids[k], pkg, now, c, a), k + 1, pid, pkg, now, c, a)
  {
    hide Resolved, ThreadRules, Outcome, Applied, AfterApply, NameFor, NameOf, NamesAfter;
    var tid, withThreads := a.tids[k], ThreadRules(c.rules, c.fnmatch, pkg);
    forall t { NameStays(acc.names, now, tid, a, withThreads, t); }
    NamesGrow(acc.names, now, tid, a, withThreads);
    CountSnoc(start.names, k, pkg, now, c, a);
    var p := PolicyAt(start.names, k, pkg, now, c, a);
    if p.Some? {
      ApplyApplies(acc.store, pid, tid, p.value, c, a.thread(k));
    }
  }

  lemma NamesGrow(cache: NameCache, now: int, tid: int, a: Answers, threadRules: bool)
    ensures !threadRules ==> NamesAfter(cache, tid, now, a.threadName(tid), threadRules) == cache
  {
  }

  lemma CountSnoc(cache: NameCache, k: nat, pkg: string, now: int, c: Setting, a: Answers)
    requires k < |a.tids|
    ensures |Counted(cache, k + 1, pkg, now, c, a)| ==
      |Counted(cache, k, pkg, now, c, a)| + if CountedAt(cache, k, pkg, now, c, a) then 1 else 0
  {
    hide CountedAt;
    assert Counted(cache, k + 1, pkg, now, c, a) ==
      Counted(cache, k, pkg, now, c, a) + if CountedAt(cache, k, pkg, now, c, a) then {k} else {};
  }

  // ---------- a process ----------

  /**
   A process has been rescanned: exactly the listed threads are treated, their policies have been applied
   in order, its directories are those from before and those of the counted threads, and the names read
   are cached. Only a full scan is noted as such.
   */
  ghost predicate Rescanned(e: World, w': World, pid: int, pkg: string, now: int, c: Setting, a: Answers, noted: bool)
    requires pid in e.procs
  {
    var p, cache := e.procs[pid], e.procs[pid].names;
    && pid in w'.procs && w'.procs - {pid} == e.procs - {pid}
    && var p' := w'.procs[pid];
    && p'.pkg == p.pkg && p'.startTime == p.startTime
    && (if noted then p'.scanned && p'.lastScan == now else p'.scanned == p.scanned && p'.lastScan == p.lastScan)
    && (forall t :: t in p'.appliedTids <==> t in a.tids)
    && (forall d :: d in p'.appliedDirs <==>
      d in p.appliedDirs || (d != "" && UsedDir(cache, |a.tids|, pkg, now, c, a, d)))
    && (forall t :: t in p'.names.names ==> t in a.tids)
    && (ThreadRules(c.rules, c.fnmatch, pkg) ==> forall t :: t in a.tids ==>
         t in p'.names.names && p'.names.names[t] == NameFor(cache, now, t, a, true))
    && Applied(w'.store.log) == Applied(e.store.log) + Expected(cache, |a.tids|, pid, pkg, now, c, a)
  }

  lemma RescanMeaning(w: World, pid: int, pkg: string, now: int, c: Setting, a: Answers)
    ensures var e := AfterEnter(w, pid, pkg, now, a.enter);
            && Rescanned(e, AfterScan(w, pid, pkg, now, c, a), pid, pkg, now, c, a, false)
            && Rescanned(e, AfterFullScan(w, pid, pkg, now, c, a), pid, pkg, now, c, a, true)
            && ScanOf(w, pid, pkg, now, c, a).applied ==
                 |Counted(e.procs[pid].names, |a.tids|, pkg, now, c, a)|
  {
    hide ScanTids, AfterEnter, Applied, CountedAt, PolicyAt, Expected, ThreadRules, UsedDir, AfterRegister;
    var e := AfterEnter(w, pid, pkg, now, a.enter);
    var start := ScanState(e.procs[pid].names, 0, [], e.store);
    assert a.tids[..|a.tids|] == a.tids;
    ScanMeaning(start, |a.tids|, pid, pkg, now, c, a);
    var scan := ScanOf(w, pid, pkg, now, c, a);
    var refreshed := AfterRefresh(w, pid, pkg, now, c, a);
    RegisterMeaning(refreshed, pid, scan.dirs);
    if ThreadRules(c.rules, c.fnmatch, pkg) {
      CachedNames(e.procs[pid].names, scan.names, now, a);
    }
  }

  /** What a scan leaves in the cache are the names the threads were matched under. */
  lemma CachedNames(before: NameCache, after: NameCache, now: int, a: Answers)
    requires forall t :: NameFor(after, now, t, a, true) == NameFor(before, now, t, a, true)
    requires forall k :: 0 <= k < |a.tids| ==> a.tids[k] in after.names
    requires a.tids != [] ==> now - after.lastFullRefresh < 60
    ensures forall t :: t in a.tids ==>
      t in after.Retain(Elements(a.tids)).names
      && after.Retain(Elements(a.tids)).names[t] == NameFor(before, now, t, a, true)
  {
    forall t | t in a.tids
      ensures t in after.Retain(Elements(a.tids)).names
      ensures after.Retain(Elements(a.tids)).names[t] == NameFor(before, now, t, a, true)
    {
      assert NameFor(after, now, t, a, true) == after.names[t];
    }
  }

  // ---------- one new thread ----------

  /**
   A single new thread of an entered process: a treated one is left alone; any other gets its policy, if
   there is one, and is treated from then on unless it is gone. Only a counted one brings its directory.
   */
  ghost predicate Added(e: World, w': World, applied: nat, pid: int, tid: int, pkg: string, now: int, c: Setting,
                        a: Answers)
    requires pid in e.procs
  {
    var p := e.procs[pid];
    var name := NameFor(p.names, now, tid, a, ThreadRules(c.rules, c.fnmatch, pkg));
    var policy := Resolved(c.rules, c.fnmatch, pkg, name);
    if tid in p.appliedTids then w' == e && applied == 0
    else
      && pid in w'.procs && w'.procs - {pid} == e.procs - {pid}
      && var p' := w'.procs[pid];
      && p'.(appliedTids := {}, appliedDirs := {}, names := p.names) == p.(appliedTids := {}, appliedDirs := {})
      && match policy
         case None => applied == 0 && p'.appliedTids == p.appliedTids + {tid} && p'.appliedDirs == p.appliedDirs &&
           w'.store == e.store
         case Some(r) =>
           var o := Outcome(r, c.topo, c.rtAllowed, a.thread(0));
           && Applied(w'.store.log) == Applied(e.store.log) + [Apply(pid, tid, r.cpusetDir, o)]
           && p'.appliedTids == p.appliedTids + (if o == Exited then {} else {tid})
           && applied == (if o == Exited || o == SkippedNoCpus then 0 else 1)
           && (forall d :: d in p'.appliedDirs <==> d in p.appliedDirs || (applied == 1 && d != "" && d == r.cpusetDir))
  }

  lemma AddMeaning(w: World, pid: int, tid: int, pkg: string, now: int, c: Setting, a: Answers)
    ensures var (w', applied) := AfterSingle(w, pid, pkg, tid, now, c, a);
            Added(AfterEnter(w, pid, pkg, now, a.enter), w', applied, pid, tid, pkg, now, c, a)
  {
    hide AfterEnter, Applied, ThreadRules, Resolved, AfterApply, Outcome, AfterRegister, NameFor, NameOf, NamesAfter;
    var e := AfterEnter(w, pid, pkg, now, a.enter);
    var p := e.procs[pid];
    var withThreads := ThreadRules(c.rules, c.fnmatch, pkg);
    NameStays(p.names, now, tid, a, withThreads, tid);
    var name := NameFor(p.names, now, tid, a, withThreads);
    var r := Resolved(c.rules, c.fnmatch, pkg, name);
    if tid !in p.appliedTids && r.Some? {
      var names := NamesAfter(p.names, tid, now, a.threadName(tid), withThreads);
      var noted := p.(names := names, appliedTids := p.appliedTids + {tid});
      var store := AfterApply(e.store, pid, tid, r.value, c, a.thread(0));
      ApplyApplies(e.store, pid, tid, r.value, c, a.thread(0));
      RegisterMeaning(World(e.procs[pid := noted], e.refs, store), pid, [r.value.cpusetDir]);
    }
  }

  // ---------- every event ----------

  /** The package an event speaks of: its own, else the command line the process has now. */
  predicate Speaks(ev: ProcessEvent, a: Answers, pkg: string) {
    if ev.pkg.Some? then pkg == ev.pkg.value else if a.cmdline.Some? then pkg == a.cmdline.value else pkg == ""
  }

  /** When a process ends, it leaves the tracker and gives back what it alone held. */
  lemma ExitMeaning(w: World, ev: ProcessEvent, now: int, c: Setting, a: Answers)
    requires Inv(w, Cpusets(c)) && ev.kind == Exit && ev.tid == ev.pid
    ensures AfterEvent(w, ev, now, c, a).1 == 0
    ensures Left(w, AfterEvent(w, ev, now, c, a).0, ev.pid, a.enter.rmdirOk)
  {
    hide Left;
    RemoveLeaves(w, ev.pid, a.enter.rmdirOk);
  }

  /** When a thread ends, it is treated no more, and that is all. */
  lemma ThreadExitMeaning(w: World, ev: ProcessEvent, now: int, c: Setting, a: Answers)
    requires ev.kind == Exit && ev.tid != ev.pid
    ensures var (w', applied) := AfterEvent(w, ev, now, c, a);
            && applied == 0 && w'.procs.Keys == w.procs.Keys && w'.refs == w.refs && w'.store == w.store
            && (forall q, t :: Treated(w', q, t) <==> Treated(w, q, t) && !(q == ev.pid && t == ev.tid))
            && (forall q :: q in w.procs ==> w'.procs[q].(appliedTids := {}) == w.procs[q].(appliedTids := {}))
  {
    ThreadLeaves(w, ev.pid, ev.tid);
  }

  /** A migration, or an event of a process without a name, changes nothing. */
  lemma NothingHappens(w: World, ev: ProcessEvent, now: int, c: Setting, a: Answers)
    requires ev.kind == CpuMigrate || (ev.kind != Exit && Speaks(ev, a, ""))
    ensures AfterEvent(w, ev, now, c, a) == (w, 0)
  {
  }

  /** A process whose package the rules do not care about leaves the tracker too. */
  lemma DisinterestMeaning(w: World, ev: ProcessEvent, now: int, c: Setting, a: Answers, pkg: string)
    requires Inv(w, Cpusets(c)) && ev.kind != Exit && ev.kind != CpuMigrate && Speaks(ev, a, pkg) && pkg != ""
    requires !Interested(c.rules, c.fnmatch, pkg)
    ensures AfterEvent(w, ev, now, c, a).1 == 0
    ensures Left(w, AfterEvent(w, ev, now, c, a).0, ev.pid, a.enter.rmdirOk)
  {
    hide Left, Interested;
    RemoveLeaves(w, ev.pid, a.enter.rmdirOk);
  }

  /** A Fork of a package of interest enters and rescans the process. */
  lemma ForkMeaning(w: World, ev: ProcessEvent, now: int, c: Setting, a: Answers, pkg: string)
    requires ev.kind == EventKind.Fork && Speaks(ev, a, pkg) && pkg != "" && Interested(c.rules, c.fnmatch, pkg)
    ensures var (w', applied), e := AfterEvent(w, ev, now, c, a), AfterEnter(w, ev.pid, pkg, now, a.enter);
            && Rescanned(e, w', ev.pid, pkg, now, c, a, true)
            && applied == |Counted(e.procs[ev.pid].names, |a.tids|, pkg, now, c, a)|
  {
    hide Rescanned, AfterFullScan, ScanOf, Interested;
    RescanMeaning(w, ev.pid, pkg, now, c, a);
  }

  /** An Exec first gives up what the old image held, and then does the same. */
  lemma ExecMeaning(w: World, ev: ProcessEvent, now: int, c: Setting, a: Answers, pkg: string)
    requires Inv(w, Cpusets(c))
    requires ev.kind == EventKind.Exec && Speaks(ev, a, pkg) && pkg != "" && Interested(c.rules, c.fnmatch, pkg)
    ensures var (w', applied), gone := AfterEvent(w, ev, now, c, a), AfterRemove(w, ev.pid, a.enter.rmdirOk);
            var e := AfterEnter(gone, ev.pid, pkg, now, a.enter);
            && Left(w, gone, ev.pid, a.enter.rmdirOk)
            && Rescanned(e, w', ev.pid, pkg, now, c, a, true)
            && applied == |Counted(e.procs[ev.pid].names, |a.tids|, pkg, now, c, a)|
  {
    hide Rescanned, AfterFullScan, ScanOf, Interested, AfterRemove, Left, Inv;
    InvParts(w, Cpusets(c));
    RemoveLeaves(w, ev.pid, a.enter.rmdirOk);
    RescanMeaning(AfterRemove(w, ev.pid, a.enter.rmdirOk), ev.pid, pkg, now, c, a);
  }

  /**
   A new thread of a package of interest: if the process was scanned less than 2 s ago the thread is added
   alone; otherwise the process is rescanned.
   */
  lemma CloneMeaning(w: World, ev: ProcessEvent, now: int, c: Setting, a: Answers, pkg: string)
    requires ev.kind == ThreadClone && Speaks(ev, a, pkg) && pkg != "" && Interested(c.rules, c.fnmatch, pkg)
    ensures var (w', applied), e := AfterEvent(w, ev, now, c, a), AfterEnter(w, ev.pid, pkg, now, a.enter);
            if ev.pid in w.procs && w.procs[ev.pid].scanned && now - w.procs[ev.pid].lastScan < 2
            then Added(e, w', applied, ev.pid, ev.tid, pkg, now, c, a)
            else Rescanned(e, w', ev.pid, pkg, now, c, a, true)
                 && applied == |Counted(e.procs[ev.pid].names, |a.tids|, pkg, now, c, a)|
  {
    hide Rescanned, AfterFullScan, ScanOf, Interested, Added, AfterSingle;
    RescanMeaning(w, ev.pid, pkg, now, c, a);
    AddMeaning(w, ev.pid, ev.tid, pkg, now, c, a);
  }

  // ---------- batches and relocks ----------

  /** Two batches one after the other are one batch. */
  lemma {:induction false} BatchMeaning(w: World, evs: seq<ProcessEvent>, more: seq<ProcessEvent>, now: int, c: Setting,
                                        answers: nat -> Answers)
    ensures var mid := AfterEvents(w, evs, now, c, answers);
            var end := AfterEvents(mid.0, more, now, c, (k: nat) => answers(|evs| + k));
            AfterEvents(w, evs + more, now, c, answers) == (end.0, mid.1 + end.1)
  {
    hide AfterEvent;
    if more == [] {
      assert evs + more == evs;
    } else {
      var n := |more| - 1;
      BatchMeaning(w, evs, more[..n], now, c, answers);
      assert (evs + more)[..|evs| + n] == evs + more[..n];
    }
  }

  /** A batch of one event is that event. */
  lemma OneEvent(w: World, ev: ProcessEvent, now: int, c: Setting, answers: nat -> Answers)
    ensures AfterEvents(w, [ev], now, c, answers) == AfterEvent(w, ev, now, c, answers(0))
  {
    hide AfterEvent;
    assert [ev][..0] == [];
  }

  /** One visit of a relock: a dead process leaves; one held back is left alone; any other is rescanned. */
  lemma VisitMeaning(w: World, pid: int, now: int, c: Setting, io: RelockIo)
    requires Inv(w, Cpusets(c)) && pid in w.procs
    ensures var (w', applied), pkg := AfterRelockOne(w, pid, now, c, io), w.procs[pid].pkg;
            && (!io.alive ==> Left(w, w', pid, io.answers.enter.rmdirOk) && applied == 0)
            && (io.alive && !io.allow ==> w' == w && applied == 0)
            && (io.alive && io.allow ==>
                 && Rescanned(w, w', pid, pkg, now, c, io.answers, false)
                 && applied == |Counted(w.procs[pid].names, |io.answers.tids|, pkg, now, c, io.answers)|)
  {
    hide Left, Rescanned, AfterScan, ScanOf, AfterRemove, Inv;
    var pkg := w.procs[pid].pkg;
    InvParts(w, Cpusets(c));
    RemoveLeaves(w, pid, io.answers.enter.rmdirOk);
    RescanMeaning(w, pid, pkg, now, c, io.answers);
    assert AfterEnter(w, pid, pkg, now, io.answers.enter) == w;
  }

  lemma InvParts(w: World, cpusets: bool)
    requires Inv(w, cpusets)
    ensures CountsMatch(w.procs, w.refs) && NoEmptyNames(w.procs)
  {
  }

  /** After a relock exactly the living are tracked, and those held back as they were. */
  lemma {:induction false} RelockMeaning(w: World, order: seq<int>, now: int, c: Setting, io: int -> RelockIo)
    requires Inv(w, Cpusets(c)) && Distinct(order)
    ensures var w' := AfterRelock(w, order, now, c, io).0;
            && (forall p :: p in w'.procs <==> p in w.procs && (p in order ==> io(p).alive))
            && (forall p :: p in w'.procs && (p in order ==> !io(p).allow) ==> w'.procs[p] == w.procs[p])
  {
    hide Inv, AfterRelockOne, Left, Rescanned;
    if order != [] {
      var n := |order| - 1;
      var init, pid := order[..n], order[n];
      assert order == init + [pid];
      RelockMeaning(w, init, now, c, io);
      RelockInv(w, init, now, c, io);
      var before := AfterRelock(w, init, now, c, io).0;
      if pid in before.procs {
        VisitKeeps(before, pid, now, c, io(pid));
      } else {
        NotVisited(before, pid, now, c, io(pid));
      }
    }
  }

  lemma VisitKeeps(w: World, pid: int, now: int, c: Setting, io: RelockIo)
    requires Inv(w, Cpusets(c)) && pid in w.procs
    ensures var w' := AfterRelockOne(w, pid, now, c, io).0;
            && (forall p :: p in w'.procs <==> p in w.procs && (p == pid ==> io.alive))
            && (forall p :: p in w'.procs && (p == pid ==> !io.allow) ==> w'.procs[p] == w.procs[p])
  {
    VisitMeaning(w, pid, now, c, io);
    hide Inv, AfterRelockOne;
    var w' := AfterRelockOne(w, pid, now, c, io).0;
    forall p | p != pid
      ensures p in w'.procs <==> p in w.procs
      ensures p in w'.procs ==> w'.procs[p] == w.procs[p]
    {
      assert p in w'.procs <==> p in w'.procs - {pid};
      assert p in w.procs <==> p in w.procs - {pid};
      assert p in w.procs ==> (w.procs - {pid})[p] == w.procs[p];
      assert p in w'.procs ==> (w'.procs - {pid})[p] == w'.procs[p];
    }
  }

  lemma NotVisited(w: World, pid: int, now: int, c: Setting, io: RelockIo)
    requires pid !in w.procs
    ensures AfterRelockOne(w, pid, now, c, io) == (w, 0)
  {
  }
}
