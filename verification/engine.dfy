/**
 The event engine: every event, relock and cleanup step as a function of the world and
 of whatever the kernel answers, and the loops that compute it.
 */
module Engine {
  import opened Prelude
  import opened CpuText
  import opened Rules
  import opened RuleSets
  import opened Backend
  import opened ThreadPolicy
  import opened Tracker

  const THREAD_SCAN_TTL: int := 2

  datatype EventKind = Fork | Exec | ThreadClone | CpuMigrate | Exit

  datatype ProcessEvent = ProcessEvent(pid: int, tid: int, kind: EventKind, pkg: Option<string>)

  /** What the rules and the device say; fixed while events are handled. */
  datatype Setting = Setting(rules: seq<CompiledRule>, fnmatch: Fnmatch, topo: CpuTopology, rtAllowed: bool)

  /** What the kernel answers during one step: any answers at all. */
  datatype Answers = Answers(
    cmdline: Option<string>,
    enter: EnterIo,
    tids: seq<int>,
    threadName: int -> string,
    thread: nat -> ThreadIo)

  // ---------- one thread ----------

  /** The name used for matching is only read when the package has thread rules. */
  function NamesAfter(names: NameCache, tid: int, now: int, read: string, threadRules: bool): NameCache {
    if threadRules then names.Lookup(tid, now, read) else names
  }

  function NameOf(names: NameCache, tid: int, now: int, read: string, threadRules: bool): string {
    if threadRules then names.Lookup(tid, now, read).names[tid] else ""
  }

  /** Applying the policy of one thread. */
  function AfterApply(s: Store, pid: int, tid: int, p: Policy, c: Setting, io: ThreadIo): Store {
    Record(Effects(s, tid, p, c.topo, io), Apply(pid, tid, p.cpusetDir, Outcome(p, c.topo, c.rtAllowed, io)))
  }

  // ---------- a full scan ----------

  datatype ScanState = ScanState(names: NameCache, applied: nat, dirs: seq<string>, store: Store)

  ghost function ScanOne(acc: ScanState, k: nat, pid: int, tid: int, pkg: string, now: int, c: Setting,
                         a: Answers)
    : ScanState
  {
    var withThreads := ThreadRules(c.rules, c.fnmatch, pkg);
    var names := NamesAfter(acc.names, tid, now, a.threadName(tid), withThreads);
    var name := NameOf(acc.names, tid, now, a.threadName(tid), withThreads);
    match Resolved(c.rules, c.fnmatch, pkg, name)
    case None => acc.(names := names)
    case Some(p) =>
      var store := AfterApply(acc.store, pid, tid, p, c, a.thread(k));
      var o := Outcome(p, c.topo, c.rtAllowed, a.thread(k));
      if o == Exited || o == SkippedNoCpus then acc.(names := names, store := store)
      else
        var dirs := if p.cpusetDir in acc.dirs then acc.dirs else acc.dirs + [p.cpusetDir];
        ScanState(names, acc.applied + 1, dirs, store)
  }

  ghost function ScanTids(acc: ScanState, tids: seq<int>, pid: int, pkg: string, now: int, c: Setting,
                          a: Answers)
    : ScanState
  {
    if tids == [] then acc
    else
      var n := |tids| - 1;
      ScanOne(ScanTids(acc, tids[..n], pid, pkg, now, c, a), n, pid, tids[n], pkg, now, c, a)
  }

  ghost function ScanOf(w: World, pid: int, pkg: string, now: int, c: Setting, a: Answers): ScanState {
    var entered := AfterEnter(w, pid, pkg, now, a.enter);
    ScanTids(ScanState(entered.procs[pid].names, 0, [], entered.store), a.tids, pid, pkg, now, c, a)
  }

  /** A full scan: every listed thread is treated, and the listed threads become the applied ones. */
  ghost function AfterRefresh(w: World, pid: int, pkg: string, now: int, c: Setting, a: Answers): World {
    var entered := AfterEnter(w, pid, pkg, now, a.enter);
    var scan := ScanOf(w, pid, pkg, now, c, a);
    var p := entered.procs[pid].(names := scan.names.Retain(Elements(a.tids)), appliedTids := Elements(a.tids));
    World(entered.procs[pid := p], entered.refs, scan.store)
  }

  ghost function AfterScan(w: World, pid: int, pkg: string, now: int, c: Setting, a: Answers): World {
    AfterRegister(AfterRefresh(w, pid, pkg, now, c, a), pid, ScanOf(w, pid, pkg, now, c, a).dirs)
  }

  function MarkScanned(w: World, pid: int, now: int): World {
    if pid in w.procs then w.(procs := w.procs[pid := w.procs[pid].(scanned := true, lastScan := now)]) else w
  }

  ghost function AfterFullScan(w: World, pid: int, pkg: string, now: int, c: Setting, a: Answers): World {
    MarkScanned(AfterScan(w, pid, pkg, now, c, a), pid, now)
  }

  // ---------- a single new thread ----------

  ghost function AfterSingle(w: World, pid: int, pkg: string, tid: int, now: int, c: Setting, a: Answers)
    : (World, nat)
  {
    var entered := AfterEnter(w, pid, pkg, now, a.enter);
    var p := entered.procs[pid];
    if tid in p.appliedTids then (entered, 0)
    else
      var withThreads := ThreadRules(c.rules, c.fnmatch, pkg);
      var names := NamesAfter(p.names, tid, now, a.threadName(tid), withThreads);
      var name := NameOf(p.names, tid, now, a.threadName(tid), withThreads);
      var named := p.(names := names);
      var noted := named.(appliedTids := p.appliedTids + {tid});
      match Resolved(c.rules, c.fnmatch, pkg, name)
      case None => (entered.(procs := entered.procs[pid := noted]), 0)
      case Some(policy) =>
        var store := AfterApply(entered.store, pid, tid, policy, c, a.thread(0));
        var o := Outcome(policy, c.topo, c.rtAllowed, a.thread(0));
        if o == Exited then (World(entered.procs[pid := named], entered.refs, store), 0)
        else if o == SkippedNoCpus then (World(entered.procs[pid := noted], entered.refs, store), 0)
        else (AfterRegister(World(entered.procs[pid := noted], entered.refs, store), pid, [policy.cpusetDir]), 1)
  }

  // ---------- events ----------

  function PkgOf(ev: ProcessEvent, a: Answers): string {
    if ev.pkg.Some? then ev.pkg.value else if a.cmdline.Some? then a.cmdline.value else ""
  }

  function NeedsFullScan(procs: Procs, pid: int, now: int): bool {
    pid in procs ==> !procs[pid].scanned || now - procs[pid].lastScan >= THREAD_SCAN_TTL
  }

  ghost function AfterEvent(w: World, ev: ProcessEvent, now: int, c: Setting, a: Answers): (World, nat) {
    match ev.kind
    case Exit =>
      (if ev.tid != ev.pid then AfterRemoveTid(w, ev.pid, ev.tid) else AfterRemove(w, ev.pid, a.enter.rmdirOk), 0)
    case CpuMigrate => (w, 0)
    case _ =>
      var pkg := PkgOf(ev, a);
      if pkg == "" then (w, 0)
      else if !Interested(c.rules, c.fnmatch, pkg) then (AfterRemove(w, ev.pid, a.enter.rmdirOk), 0)
      else if ev.kind == ThreadClone && !NeedsFullScan(w.procs, ev.pid, now) then
        AfterSingle(w, ev.pid, pkg, ev.tid, now, c, a)
      else
        var before := if ev.kind == EventKind.Exec then AfterRemove(w, ev.pid, a.enter.rmdirOk) else w;
        (AfterFullScan(before, ev.pid, pkg, now, c, a), ScanOf(before, ev.pid, pkg, now, c, a).applied)
  }

  ghost function AfterEvents(w: World, evs: seq<ProcessEvent>, now: int, c: Setting, answers: nat -> Answers)
    : (World, nat)
  {
    if evs == [] then (w, 0)
    else
      var n := |evs| - 1;
      var before := AfterEvents(w, evs[..n], now, c, answers);
      var last := AfterEvent(before.0, evs[n], now, c, answers(n));
      (last.0, before.1 + last.1)
  }

  // ---------- relock and cleanup ----------

  /** For one process: whether it lives, whether the decision gate lets it through, and the scan's answers. */
  datatype RelockIo = RelockIo(alive: bool, allow: bool, answers: Answers)

  ghost function AfterRelockOne(w: World, pid: int, now: int, c: Setting, io: RelockIo): (World, nat) {
    if pid !in w.procs then (w, 0)
    else if !io.alive then (AfterRemove(w, pid, io.answers.enter.rmdirOk), 0)
    else if !io.allow then (w, 0)
    else
      var pkg := w.procs[pid].pkg;
      (AfterScan(w, pid, pkg, now, c, io.answers), ScanOf(w, pid, pkg, now, c, io.answers).applied)
  }

  ghost function AfterRelock(w: World, order: seq<int>, now: int, c: Setting, io: int -> RelockIo): (World, nat) {
    if order == [] then (w, 0)
    else
      var n := |order| - 1;
      var before := AfterRelock(w, order[..n], now, c, io);
      var last := AfterRelockOne(before.0, order[n], now, c, io(order[n]));
      (last.0, before.1 + last.1)
  }

  // ---------- every step keeps the laws ----------

  predicate Cpusets(c: Setting) { UsesCpusets(c.topo) }

  lemma EffectsOk(s: Store, tid: int, p: Policy, topo: CpuTopology, io: ThreadIo)
    requires StoreOk(s)
    ensures StoreOk(Effects(s, tid, p, topo, io))
    ensures s.ensured <= Effects(s, tid, p, topo, io).ensured
    ensures UsesCpusets(topo) && p.cpus != {} && p.cpusetDir != "" ==>
      p.cpusetDir in Effects(s, tid, p, topo, io).ensured
  {
    hide Coherent, ReclaimsUnheld, MasksNonEmpty, MaskSet;
    var s1 := if p.cpus != {} && UsesCpusets(topo) && p.cpusetDir != "" then Ensure(s, p.cpusetDir, io.mkdirOk) else s;
    EnsureCoherent(s, p.cpusetDir, io.mkdirOk);
    if s1.log != s.log {
      LogSnoc(s, s1.log[|s.log|]);
    }
    var mask := MaskSet(p.cpus, topo, io);
    if mask.Some? {
      RecordCoherent(s1, SetAffinity(tid, mask.value));
      LogSnoc(s1, SetAffinity(tid, mask.value));
    }
  }

  /** A resolved policy names its directory after its CPUs, so a nameless directory has no CPUs. */
  lemma ResolvedDir(rules: seq<CompiledRule>, fnmatch: Fnmatch, pkg: string, name: string)
    ensures var p := Resolved(rules, fnmatch, pkg, name);
            p.Some? ==>
              p.value.cpusetDir == RangeString(p.value.cpus) && (p.value.cpusetDir != "" <==> p.value.cpus != {})
  {
    hide RangeString, Scan;
    var p := Resolved(rules, fnmatch, pkg, name);
    if p.Some? {
      EmptyName(p.value.cpus);
    }
  }

  lemma AfterApplyOk(s: Store, pid: int, tid: int, p: Policy, c: Setting, io: ThreadIo)
    requires StoreOk(s)
    ensures var t := AfterApply(s, pid, tid, p, c, io);
            && StoreOk(t) && s.ensured <= t.ensured
            && (Cpusets(c) && p.cpus != {} && p.cpusetDir != "" ==> p.cpusetDir in t.ensured)
  {
    hide Coherent, ReclaimsUnheld, MasksNonEmpty, Effects, Outcome;
    EffectsOk(s, tid, p, c.topo, io);
    var t, o := Effects(s, tid, p, c.topo, io), Apply(pid, tid, p.cpusetDir, Outcome(p, c.topo, c.rtAllowed, io));
    RecordCoherent(t, o);
    LogSnoc(t, o);
  }

  /** While scanning, every directory collected for registration has been ensured. */
  ghost predicate ScanOk(acc: ScanState, before: Store, cpusets: bool) {
    && StoreOk(acc.store) && before.ensured <= acc.store.ensured
    && (cpusets ==> forall d :: d in acc.dirs && d != "" ==> d in acc.store.ensured)
  }

  lemma ScanOneOk(acc: ScanState, k: nat, pid: int, tid: int, pkg: string, now: int, c: Setting, a: Answers,
                  before: Store)
    requires ScanOk(acc, before, Cpusets(c))
    ensures ScanOk(ScanOne(acc, k, pid, tid, pkg, now, c, a), before, Cpusets(c))
  {
    hide StoreOk, Resolved, AfterApply, Outcome, ThreadRules, NamesAfter, NameOf;
    var name := NameOf(acc.names, tid, now, a.threadName(tid), ThreadRules(c.rules, c.fnmatch, pkg));
    var p := Resolved(c.rules, c.fnmatch, pkg, name);
    if p.Some? {
      ResolvedDir(c.rules, c.fnmatch, pkg, name);
      AfterApplyOk(acc.store, pid, tid, p.value, c, a.thread(k));
    }
  }

  lemma {:induction false} ScanTidsOk(acc: ScanState, tids: seq<int>, pid: int, pkg: string, now: int, c: Setting,
                                      a: Answers, before: Store)
    requires ScanOk(acc, before, Cpusets(c))
    ensures ScanOk(ScanTids(acc, tids, pid, pkg, now, c, a), before, Cpusets(c))
  {
    hide ScanOk, ScanOne;
    if tids != [] {
      var n := |tids| - 1;
      ScanTidsOk(acc, tids[..n], pid, pkg, now, c, a, before);
      ScanOneOk(ScanTids(acc, tids[..n], pid, pkg, now, c, a), n, pid, tids[n], pkg, now, c, a, before);
    }
  }

  lemma StoreGrows(w: World, s: Store, cpusets: bool)
    requires Inv(w, cpusets) && StoreOk(s) && w.store.ensured <= s.ensured
    ensures Inv(w.(store := s), cpusets)
  {
    hide CountsMatch, StoreOk;
  }

  lemma RefreshInv(w: World, pid: int, pkg: string, now: int, c: Setting, a: Answers)
    requires Inv(w, Cpusets(c))
    ensures Inv(AfterRefresh(w, pid, pkg, now, c, a), Cpusets(c))
    ensures Cpusets(c) ==> forall d :: d in ScanOf(w, pid, pkg, now, c, a).dirs && d != "" ==>
      d in AfterRefresh(w, pid, pkg, now, c, a).store.ensured
  {
    hide ScanTids, AfterEnter, CountsMatch, StoreOk;
    EnterInv(w, pid, pkg, now, a.enter, Cpusets(c));
    var entered := AfterEnter(w, pid, pkg, now, a.enter);
    var start := ScanState(entered.procs[pid].names, 0, [], entered.store);
    ScanTidsOk(start, a.tids, pid, pkg, now, c, a, entered.store);
    var scan := ScanTids(start, a.tids, pid, pkg, now, c, a);
    StoreGrows(entered, scan.store, Cpusets(c));
    var p := entered.procs[pid].(names := scan.names.Retain(Elements(a.tids)), appliedTids := Elements(a.tids));
    SameDirs(entered.(store := scan.store), pid, p, Cpusets(c));
  }

  lemma ScanInv(w: World, pid: int, pkg: string, now: int, c: Setting, a: Answers)
    requires Inv(w, Cpusets(c))
    ensures Inv(AfterScan(w, pid, pkg, now, c, a), Cpusets(c))
  {
    hide Inv, AfterRefresh, ScanOf, AfterRegister;
    RefreshInv(w, pid, pkg, now, c, a);
    RegisterInv(AfterRefresh(w, pid, pkg, now, c, a), pid, ScanOf(w, pid, pkg, now, c, a).dirs, Cpusets(c));
  }

  lemma FullScanInv(w: World, pid: int, pkg: string, now: int, c: Setting, a: Answers)
    requires Inv(w, Cpusets(c))
    ensures Inv(AfterFullScan(w, pid, pkg, now, c, a), Cpusets(c))
  {
    hide Inv, AfterScan;
    ScanInv(w, pid, pkg, now, c, a);
    var s := AfterScan(w, pid, pkg, now, c, a);
    if pid in s.procs {
      SameDirs(s, pid, s.procs[pid].(scanned := true, lastScan := now), Cpusets(c));
    }
  }

  lemma SingleInv(w: World, pid: int, pkg: string, tid: int, now: int, c: Setting, a: Answers)
    requires Inv(w, Cpusets(c))
    ensures Inv(AfterSingle(w, pid, pkg, tid, now, c, a).0, Cpusets(c))
  {
    hide Inv, AfterEnter, Resolved, AfterApply, Outcome, ThreadRules, NamesAfter, NameOf, AfterRegister, StoreOk;
    EnterInv(w, pid, pkg, now, a.enter, Cpusets(c));
    var e := AfterEnter(w, pid, pkg, now, a.enter);
    var p := e.procs[pid];
    var withThreads := ThreadRules(c.rules, c.fnmatch, pkg);
    var named := p.(names := NamesAfter(p.names, tid, now, a.threadName(tid), withThreads));
    var noted := named.(appliedTids := p.appliedTids + {tid});
    var name := NameOf(p.names, tid, now, a.threadName(tid), withThreads);
    SameDirs(e, pid, noted, Cpusets(c));
    var r := Resolved(c.rules, c.fnmatch, pkg, name);
    if r.Some? {
      ResolvedDir(c.rules, c.fnmatch, pkg, name);
      var store := AfterApply(e.store, pid, tid, r.value, c, a.thread(0));
      InvStore(e, Cpusets(c));
      AfterApplyOk(e.store, pid, tid, r.value, c, a.thread(0));
      StoreGrows(e, store, Cpusets(c));
      SameDirs(e.(store := store), pid, named, Cpusets(c));
      SameDirs(e.(store := store), pid, noted, Cpusets(c));
      RegisterInv(World(e.procs[pid := noted], e.refs, store), pid, [r.value.cpusetDir], Cpusets(c));
    }
  }

  lemma InvStore(w: World, cpusets: bool)
    requires Inv(w, cpusets)
    ensures StoreOk(w.store)
  {
  }

  /** Every event keeps the laws of the tracker, whatever the kernel answers. */
  lemma EventInv(w: World, ev: ProcessEvent, now: int, c: Setting, a: Answers)
    requires Inv(w, Cpusets(c))
    ensures Inv(AfterEvent(w, ev, now, c, a).0, Cpusets(c))
  {
    hide Inv, AfterRemove, AfterSingle, AfterFullScan, Interested, ScanOf;
    var pkg := PkgOf(ev, a);
    RemoveInv(w, ev.pid, a.enter.rmdirOk, Cpusets(c));
    if ev.pid in w.procs {
      var p := w.procs[ev.pid];
      SameDirs(w, ev.pid, p.(appliedTids := p.appliedTids - {ev.tid}), Cpusets(c));
    }
    SingleInv(w, ev.pid, pkg, ev.tid, now, c, a);
    FullScanInv(w, ev.pid, pkg, now, c, a);
    FullScanInv(AfterRemove(w, ev.pid, a.enter.rmdirOk), ev.pid, pkg, now, c, a);
  }

  lemma {:induction false} EventsInv(w: World, evs: seq<ProcessEvent>, now: int, c: Setting, answers: nat -> Answers)
    requires Inv(w, Cpusets(c))
    ensures Inv(AfterEvents(w, evs, now, c, answers).0, Cpusets(c))
  {
    hide Inv, AfterEvent;
    if evs != [] {
      var n := |evs| - 1;
      EventsInv(w, evs[..n], now, c, answers);
      EventInv(AfterEvents(w, evs[..n], now, c, answers).0, evs[n], now, c, answers(n));
    }
  }

  lemma {:induction false} RelockInv(w: World, order: seq<int>, now: int, c: Setting, io: int -> RelockIo)
    requires Inv(w, Cpusets(c))
    ensures Inv(AfterRelock(w, order, now, c, io).0, Cpusets(c))
  {
    hide Inv, AfterScan, AfterRemove, ScanOf;
    if order != [] {
      var n := |order| - 1;
      RelockInv(w, order[..n], now, c, io);
      var before, pid := AfterRelock(w, order[..n], now, c, io).0, order[n];
      if pid in before.procs {
        RemoveInv(before, pid, io(pid).answers.enter.rmdirOk, Cpusets(c));
        ScanInv(before, pid, before.procs[pid].pkg, now, c, io(pid).answers);
      }
    }
  }

  // ---------- every run ----------

  /** The steps of the daemon's main loop, each with the rules in force and the kernel's answers. */
  datatype Step =
    | Events(evs: seq<ProcessEvent>, now: int, rules: seq<CompiledRule>, rtAllowed: bool, answers: nat -> Answers)
    | Relock(order: seq<int>, now: int, rules: seq<CompiledRule>, rtAllowed: bool, relockIo: int -> RelockIo)
    | Drop(gone: seq<int>, rmdirOk: int -> string -> bool)

  ghost function AfterStep(w: World, step: Step, fnmatch: Fnmatch, topo: CpuTopology): World {
    match step
    case Events(evs, now, rules, rt, answers) => AfterEvents(w, evs, now, Setting(rules, fnmatch, topo, rt), answers).0
    case Relock(order, now, rules, rt, io) => AfterRelock(w, order, now, Setting(rules, fnmatch, topo, rt), io).0
    case Drop(gone, rmdirOk) => RemoveAll(w, gone, rmdirOk)
  }

  ghost function AfterRun(w: World, steps: seq<Step>, fnmatch: Fnmatch, topo: CpuTopology): World {
    if steps == [] then w
    else
      var n := |steps| - 1;
      AfterStep(AfterRun(w, steps[..n], fnmatch, topo), steps[n], fnmatch, topo)
  }

  function Start(disk: set<string>): World { World(map[], map[], Store({}, disk, [])) }

  lemma StartInv(disk: set<string>, cpusets: bool)
    ensures Inv(Start(disk), cpusets)
  {
  }

  /**
   Along every run of events, relocks, cleanups and reloads, from an empty tracker and whatever
   directories exist: counts equal holders, directories are handed to rmdir only when unheld, the
   ensure cache tells the truth about every directory whose last creation succeeded, and every mask
   set is non-empty.
   */
  lemma {:induction false} RunInv(steps: seq<Step>, fnmatch: Fnmatch, topo: CpuTopology, disk: set<string>)
    ensures Inv(AfterRun(Start(disk), steps, fnmatch, topo), UsesCpusets(topo))
  {
    hide Inv, AfterEvents, AfterRelock, RemoveAll, Start;
    if steps == [] {
      StartInv(disk, UsesCpusets(topo));
    } else {
      var n := |steps| - 1;
      RunInv(steps[..n], fnmatch, topo, disk);
      var w := AfterRun(Start(disk), steps[..n], fnmatch, topo);
      match steps[n] {
        case Events(evs, now, rules, rt, answers) => EventsInv(w, evs, now, Setting(rules, fnmatch, topo, rt), answers);
        case Relock(order, now, rules, rt, io) => RelockInv(w, order, now, Setting(rules, fnmatch, topo, rt), io);
        case Drop(gone, rmdirOk) => RemoveAllInv(w, gone, rmdirOk, UsesCpusets(topo));
      }
    }
  }

  /**
   In every run in which making directories never fails, every early return for a cached name, at
   whatever moment of a step, found the directory there; and at the end every cached name exists.
   */
  lemma {:induction false} CacheIsRight(steps: seq<Step>, fnmatch: Fnmatch, topo: CpuTopology, disk: set<string>)
    requires MkdirsSucceeded(AfterRun(Start(disk), steps, fnmatch, topo).store.log)
    ensures var s := AfterRun(Start(disk), steps, fnmatch, topo).store;
            s.ensured <= s.disk && forall i :: 0 <= i < |s.log| && s.log[i].Cached? ==> s.log[i].there
  {
    hide AfterRun, MkdirsSucceeded, ReturnsTold, ReclaimsUnheld, MasksNonEmpty;
    RunInv(steps, fnmatch, topo, disk);
    var s := AfterRun(Start(disk), steps, fnmatch, topo).store;
    CachedDirsExist(s);
    ReturnsRight(s.log);
  }

  /** In every such run every directory that a tracked process holds exists, if cpusets are in use. */
  lemma {:induction false} HeldDirsExist(steps: seq<Step>, fnmatch: Fnmatch, topo: CpuTopology, disk: set<string>,
                                         pid: int, d: string)
    requires UsesCpusets(topo)
    requires MkdirsSucceeded(AfterRun(Start(disk), steps, fnmatch, topo).store.log)
    requires var w := AfterRun(Start(disk), steps, fnmatch, topo); pid in w.procs && d in w.procs[pid].appliedDirs
    ensures d in AfterRun(Start(disk), steps, fnmatch, topo).store.disk
  {
    hide AfterRun, Coherent, MkdirsSucceeded, ReclaimsUnheld, MasksNonEmpty;
    RunInv(steps, fnmatch, topo, disk);
    CacheIsRight(steps, fnmatch, topo, disk);
    var w := AfterRun(Start(disk), steps, fnmatch, topo);
    assert pid in Holders(w.procs, d);
  }

  // ---------- applied at most once ----------

  /** Whether a thread of a process counts as treated. */
  predicate Treated(w: World, pid: int, tid: int) { pid in w.procs && tid in w.procs[pid].appliedTids }

  /** The outcomes of all applications of a policy to one thread, in order. */
  function OutcomesFor(log: seq<Io>, pid: int, tid: int): seq<ApplyOutcome> {
    if log == [] then []
    else
      var io := log[|log| - 1];
      OutcomesFor(log[..|log| - 1], pid, tid) + if io.Apply? && io.pid == pid && io.tid == tid then [io.outcome] else []
  }

  /** How many outcomes did not find the thread gone. */
  function FoundAlive(outcomes: seq<ApplyOutcome>): nat {
    if outcomes == [] then 0
    else FoundAlive(outcomes[..|outcomes| - 1]) + if outcomes[|outcomes| - 1] == Exited then 0 else 1
  }

  function Applications(w: World, pid: int, tid: int): nat { FoundAlive(OutcomesFor(w.store.log, pid, tid)) }

  function Untreated(w: World, pid: int, tid: int): nat { if Treated(w, pid, tid) then 0 else 1 }

  /** Nothing about the thread has changed. */
  predicate Untouched(w: World, w': World, pid: int, tid: int) {
    && Treated(w', pid, tid) == Treated(w, pid, tid)
    && OutcomesFor(w'.store.log, pid, tid) == OutcomesFor(w.store.log, pid, tid)
  }

  /**
   A treated thread stays treated and no policy is applied to it, not even in vain; an untreated one
   had a policy applied alive at most once, and is treated if it had.
   */
  predicate OnceAtMost(w: World, w': World, pid: int, tid: int) {
    && (Treated(w, pid, tid) ==> Untouched(w, w', pid, tid))
    && Applications(w', pid, tid) + Untreated(w', pid, tid) <= Applications(w, pid, tid) + Untreated(w, pid, tid)
  }

  lemma OutcomesSnoc(log: seq<Io>, io: Io, pid: int, tid: int)
    ensures OutcomesFor(log + [io], pid, tid) ==
      OutcomesFor(log, pid, tid) + if io.Apply? && io.pid == pid && io.tid == tid then [io.outcome] else []
  {
    assert (log + [io])[..|log|] == log;
  }

  lemma EffectsTouchNothing(s: Store, t: int, p: Policy, topo: CpuTopology, io: ThreadIo, pid: int, tid: int)
    ensures OutcomesFor(Effects(s, t, p, topo, io).log, pid, tid) == OutcomesFor(s.log, pid, tid)
  {
    hide MaskSet, OutcomesFor;
    OutcomesSnoc(s.log, Mkdir(p.cpusetDir, io.mkdirOk || p.cpusetDir in s.disk), pid, tid);
    OutcomesSnoc(s.log, Cached(p.cpusetDir, p.cpusetDir in s.disk), pid, tid);
    var s1 := if p.cpus != {} && UsesCpusets(topo) && p.cpusetDir != "" then Ensure(s, p.cpusetDir, io.mkdirOk) else s;
    var mask := MaskSet(p.cpus, topo, io);
    if mask.Some? {
      OutcomesSnoc(s1.log, SetAffinity(t, mask.value), pid, tid);
    }
  }

  lemma RemoveTouchesNothing(w: World, p: int, rmdirOk: string -> bool, pid: int, tid: int)
    ensures var w' := AfterRemove(w, p, rmdirOk);
            && OutcomesFor(w'.store.log, pid, tid) == OutcomesFor(w.store.log, pid, tid)
            && (p != pid ==> Untouched(w, w', pid, tid))
  {
    hide OutcomesFor;
    if p in w.procs {
      var log := AfterRemove(w, p, rmdirOk).store.log;
      OutcomesSnoc(w.store.log, log[|w.store.log|], pid, tid);
      assert log == w.store.log + [log[|w.store.log|]];
    }
  }

  lemma EnterTouchesNothing(w: World, p: int, pkg: string, now: int, io: EnterIo, pid: int, tid: int)
    requires p != pid || ActionOf(w.procs, p, pkg, io) != Reuse
    ensures Untouched(w, AfterEnter(w, p, pkg, now, io), pid, tid)
  {
    hide OutcomesFor, AfterRemove;
    RemoveTouchesNothing(w, p, io.rmdirOk, pid, tid);
    RemoveGone(w, p, io.rmdirOk);
  }

  lemma ApplyTouches(s: Store, p: int, t: int, policy: Policy, c: Setting, io: ThreadIo, pid: int, tid: int)
    ensures var before := OutcomesFor(s.log, pid, tid);
            OutcomesFor(AfterApply(s, p, t, policy, c, io).log, pid, tid) ==
              if p == pid && t == tid then before + [Outcome(policy, c.topo, c.rtAllowed, io)] else before
  {
    hide OutcomesFor, Effects, Outcome;
    EffectsTouchNothing(s, t, policy, c.topo, io, pid, tid);
    var entry := Apply(p, t, policy.cpusetDir, Outcome(policy, c.topo, c.rtAllowed, io));
    OutcomesSnoc(Effects(s, t, policy, c.topo, io).log, entry, pid, tid);
  }

  lemma {:induction false} ScanTouchesNothing(acc: ScanState, tids: seq<int>, p: int, pkg: string, now: int, c: Setting,
                                              a: Answers, pid: int, tid: int)
    requires p != pid
    ensures OutcomesFor(ScanTids(acc, tids, p, pkg, now, c, a).store.log, pid, tid) ==
      OutcomesFor(acc.store.log, pid, tid)
  {
    hide OutcomesFor, Resolved, AfterApply, Outcome, ThreadRules, NamesAfter, NameOf;
    if tids != [] {
      var n := |tids| - 1;
      ScanTouchesNothing(acc, tids[..n], p, pkg, now, c, a, pid, tid);
      var before := ScanTids(acc, tids[..n], p, pkg, now, c, a);
      var name := NameOf(before.names, tids[n], now, a.threadName(tids[n]), ThreadRules(c.rules, c.fnmatch, pkg));
      var r := Resolved(c.rules, c.fnmatch, pkg, name);
      if r.Some? {
        ApplyTouches(before.store, p, tids[n], r.value, c, a.thread(n), pid, tid);
      }
    }
  }

  /** Scanning one process leaves the threads of all others alone. */
  lemma OtherScan(w: World, p: int, pkg: string, now: int, c: Setting, a: Answers, pid: int, tid: int)
    requires p != pid
    ensures Untouched(w, AfterScan(w, p, pkg, now, c, a), pid, tid)
    ensures Untouched(w, AfterFullScan(w, p, pkg, now, c, a), pid, tid)
  {
    hide OutcomesFor, AfterEnter, ScanTids, Counted, NewDirs;
    EnterTouchesNothing(w, p, pkg, now, a.enter, pid, tid);
    var entered := AfterEnter(w, p, pkg, now, a.enter);
    ScanTouchesNothing(ScanState(entered.procs[p].names, 0, [], entered.store), a.tids, p, pkg, now, c, a, pid, tid);
  }

  lemma {:induction false} FoundAliveSnoc(outcomes: seq<ApplyOutcome>, o: ApplyOutcome)
    ensures FoundAlive(outcomes + [o]) == FoundAlive(outcomes) + if o == Exited then 0 else 1
  {
    assert (outcomes + [o])[..|outcomes|] == outcomes;
  }

  /** Treating a single thread: another thread is left alone, and so is this one if it is treated already. */
  lemma SingleOnce(w: World, p: int, pkg: string, t: int, now: int, c: Setting, a: Answers, pid: int, tid: int)
    requires p != pid || ActionOf(w.procs, p, pkg, a.enter) != Reuse
    ensures var w' := AfterSingle(w, p, pkg, t, now, c, a).0;
            OnceAtMost(w, w', pid, tid) && (p != pid ==> Untouched(w, w', pid, tid))
  {
    hide OutcomesFor, FoundAlive, AfterEnter, Resolved, AfterApply, ThreadRules, NamesAfter, NameOf, NewDirs, Counted,
      Outcome, ActionOf;
    EnterTouchesNothing(w, p, pkg, now, a.enter, pid, tid);
    var e := AfterEnter(w, p, pkg, now, a.enter);
    var name := NameOf(e.procs[p].names, t, now, a.threadName(t), ThreadRules(c.rules, c.fnmatch, pkg));
    var r := Resolved(c.rules, c.fnmatch, pkg, name);
    if t !in e.procs[p].appliedTids && r.Some? {
      ApplyTouches(e.store, p, t, r.value, c, a.thread(0), pid, tid);
      FoundAliveSnoc(OutcomesFor(e.store.log, pid, tid), Outcome(r.value, c.topo, c.rtAllowed, a.thread(0)));
    }
  }

  lemma OtherEvent(w: World, ev: ProcessEvent, now: int, c: Setting, a: Answers, pid: int, tid: int)
    requires ev.pid != pid
    ensures Untouched(w, AfterEvent(w, ev, now, c, a).0, pid, tid)
  {
    hide OutcomesFor, AfterSingle, AfterRemove, AfterFullScan, Interested, ScanOf;
    var pkg, gone := PkgOf(ev, a), AfterRemove(w, ev.pid, a.enter.rmdirOk);
    RemoveTouchesNothing(w, ev.pid, a.enter.rmdirOk, pid, tid);
    SingleOnce(w, ev.pid, pkg, ev.tid, now, c, a, pid, tid);
    OtherScan(w, ev.pid, pkg, now, c, a, pid, tid);
    OtherScan(gone, ev.pid, pkg, now, c, a, pid, tid);
  }

  /** Events that neither rescan the process, nor end it or the thread: all events of others, and these of its own. */
  predicate QuietEvent(w: World, ev: ProcessEvent, now: int, c: Setting, a: Answers, pid: int, tid: int) {
    || ev.pid != pid
    || ev.kind == CpuMigrate
    || (ev.kind == Exit && ev.tid != pid && ev.tid != tid)
    || (ev.kind != Exit && PkgOf(ev, a) == "")
    || (&& ev.kind == ThreadClone
        && !NeedsFullScan(w.procs, pid, now)
        && Interested(c.rules, c.fnmatch, PkgOf(ev, a))
        && ActionOf(w.procs, pid, PkgOf(ev, a), a.enter) != Reuse)
  }

  lemma QuietEventOnce(w: World, ev: ProcessEvent, now: int, c: Setting, a: Answers, pid: int, tid: int)
    requires QuietEvent(w, ev, now, c, a, pid, tid)
    ensures OnceAtMost(w, AfterEvent(w, ev, now, c, a).0, pid, tid)
  {
    hide OutcomesFor, FoundAlive, AfterSingle, AfterRemove, AfterFullScan, Interested, ScanOf, ActionOf;
    if ev.pid != pid {
      OtherEvent(w, ev, now, c, a, pid, tid);
    } else if ev.kind == ThreadClone && PkgOf(ev, a) != "" {
      SingleOnce(w, pid, PkgOf(ev, a), ev.tid, now, c, a, pid, tid);
    }
  }

  ghost predicate QuietEvents(w: World, evs: seq<ProcessEvent>, now: int, c: Setting, answers: nat -> Answers,
                              pid: int, tid: int) {
    evs == [] ||
    (var n := |evs| - 1;
     && QuietEvents(w, evs[..n], now, c, answers, pid, tid)
     && QuietEvent(AfterEvents(w, evs[..n], now, c, answers).0, evs[n], now, c, answers(n), pid, tid))
  }

  lemma {:induction false} QuietEventsOnce(w: World, evs: seq<ProcessEvent>, now: int, c: Setting,
                                           answers: nat -> Answers, pid: int, tid: int)
    requires QuietEvents(w, evs, now, c, answers, pid, tid)
    ensures OnceAtMost(w, AfterEvents(w, evs, now, c, answers).0, pid, tid)
  {
    hide Applications, OutcomesFor, AfterEvent, QuietEvent, Treated, Untreated;
    if evs != [] {
      var n := |evs| - 1;
      QuietEventsOnce(w, evs[..n], now, c, answers, pid, tid);
      QuietEventOnce(AfterEvents(w, evs[..n], now, c, answers).0, evs[n], now, c, answers(n), pid, tid);
    }
  }

  /** A relock visits the process at most to skip it: it lives and the decision gate holds it back. */
  predicate QuietRelock(order: seq<int>, io: int -> RelockIo, pid: int) {
    pid in order ==> io(pid).alive && !io(pid).allow
  }

  lemma {:induction false} QuietRelockOnce(w: World, order: seq<int>, now: int, c: Setting, io: int -> RelockIo,
                                           pid: int, tid: int)
    requires QuietRelock(order, io, pid)
    ensures Untouched(w, AfterRelock(w, order, now, c, io).0, pid, tid)
  {
    hide OutcomesFor, AfterRemove, AfterScan, ScanOf;
    if order != [] {
      var n := |order| - 1;
      QuietRelockOnce(w, order[..n], now, c, io, pid, tid);
      var before, p := AfterRelock(w, order[..n], now, c, io).0, order[n];
      if p != pid && p in before.procs {
        RemoveTouchesNothing(before, p, io(p).answers.enter.rmdirOk, pid, tid);
        OtherScan(before, p, before.procs[p].pkg, now, c, io(p).answers, pid, tid);
      }
    }
  }

  lemma {:induction false} DropOthers(w: World, gone: seq<int>, rmdirOk: int -> string -> bool, pid: int, tid: int)
    requires pid !in gone
    ensures Untouched(w, RemoveAll(w, gone, rmdirOk), pid, tid)
  {
    hide OutcomesFor, AfterRemove;
    if gone != [] {
      var n := |gone| - 1;
      DropOthers(w, gone[..n], rmdirOk, pid, tid);
      RemoveTouchesNothing(RemoveAll(w, gone[..n], rmdirOk), gone[n], rmdirOk(gone[n]), pid, tid);
    }
  }

  ghost predicate QuietStep(w: World, step: Step, fnmatch: Fnmatch, topo: CpuTopology, pid: int, tid: int) {
    match step
    case Events(evs, now, rules, rt, answers) =>
      QuietEvents(w, evs, now, Setting(rules, fnmatch, topo, rt), answers, pid, tid)
    case Relock(order, _, _, _, io) => QuietRelock(order, io, pid)
    case Drop(gone, _) => pid !in gone
  }

  ghost predicate QuietRun(w: World, steps: seq<Step>, fnmatch: Fnmatch, topo: CpuTopology, pid: int, tid: int) {
    steps == [] ||
    (var n := |steps| - 1;
     && QuietRun(w, steps[..n], fnmatch, topo, pid, tid)
     && QuietStep(AfterRun(w, steps[..n], fnmatch, topo), steps[n], fnmatch, topo, pid, tid))
  }

  /**
   Along every run of events, relocks, cleanups and reloads that does not rescan the process, nor end
   it or the thread, a thread's policy is applied at most once to a living thread; and not attempted
   at all once the thread counts as treated. What happens to other processes does not matter.
   */
  lemma {:induction false} AppliedAtMostOnce(w: World, steps: seq<Step>, fnmatch: Fnmatch, topo: CpuTopology, pid: int,
                                             tid: int)
    requires QuietRun(w, steps, fnmatch, topo, pid, tid)
    ensures OnceAtMost(w, AfterRun(w, steps, fnmatch, topo), pid, tid)
  {
    hide Applications, OutcomesFor, AfterEvents, AfterRelock, RemoveAll, QuietEvents, QuietRelock, Treated, Untreated;
    if steps != [] {
      var n := |steps| - 1;
      AppliedAtMostOnce(w, steps[..n], fnmatch, topo, pid, tid);
      StepOnce(AfterRun(w, steps[..n], fnmatch, topo), steps[n], fnmatch, topo, pid, tid);
    }
  }

  lemma StepOnce(w: World, step: Step, fnmatch: Fnmatch, topo: CpuTopology, pid: int, tid: int)
    requires QuietStep(w, step, fnmatch, topo, pid, tid)
    ensures OnceAtMost(w, AfterStep(w, step, fnmatch, topo), pid, tid)
  {
    hide FoundAlive, OutcomesFor, AfterEvents, AfterRelock, RemoveAll, QuietEvents, QuietRelock;
    match step {
      case Events(evs, now, rules, rt, answers) =>
        QuietEventsOnce(w, evs, now, Setting(rules, fnmatch, topo, rt), answers, pid, tid);
      case Relock(order, now, rules, rt, io) =>
        QuietRelockOnce(w, order, now, Setting(rules, fnmatch, topo, rt), io, pid, tid);
      case Drop(gone, rmdirOk) => DropOthers(w, gone, rmdirOk, pid, tid);
    }
  }

  /** After a full scan exactly the listed threads are treated, and only their names are cached. */
  lemma FullScanTreats(w: World, pid: int, pkg: string, now: int, c: Setting, a: Answers)
    ensures var w' := AfterFullScan(w, pid, pkg, now, c, a);
            && pid in w'.procs && w'.procs[pid].scanned && w'.procs[pid].lastScan == now
            && (forall t :: Treated(w', pid, t) <==> t in a.tids)
            && (forall t :: t in w'.procs[pid].names.names ==> t in a.tids)
  {
    hide ScanTids, AfterEnter, Counted;
  }

  // ---------- what one event changes ----------

  predicate SameAt(w: World, w': World, q: int) {
    (q in w'.procs <==> q in w.procs) && (q in w.procs ==> w'.procs[q] == w.procs[q])
  }

  lemma RemoveFrame(w: World, pid: int, rmdirOk: string -> bool, q: int)
    requires q != pid
    ensures SameAt(w, AfterRemove(w, pid, rmdirOk), q)
  {
    hide AfterRemove;
    RemoveGone(w, pid, rmdirOk);
  }

  lemma EnterFrame(w: World, pid: int, pkg: string, now: int, io: EnterIo, q: int)
    requires q != pid
    ensures SameAt(w, AfterEnter(w, pid, pkg, now, io), q)
  {
    hide AfterRemove, ActionOf;
    RemoveFrame(w, pid, io.rmdirOk, q);
  }

  lemma FullScanFrame(w: World, pid: int, pkg: string, now: int, c: Setting, a: Answers, q: int)
    requires q != pid
    ensures SameAt(w, AfterFullScan(w, pid, pkg, now, c, a), q)
  {
    hide AfterEnter, ScanOf, Counted, NewDirs;
    EnterFrame(w, pid, pkg, now, a.enter, q);
  }

  lemma SingleFrame(w: World, pid: int, pkg: string, tid: int, now: int, c: Setting, a: Answers, q: int)
    requires q != pid
    ensures SameAt(w, AfterSingle(w, pid, pkg, tid, now, c, a).0, q)
  {
    hide AfterEnter, Counted, NewDirs, ThreadRules, Resolved, AfterApply, Outcome, NameOf, NamesAfter;
    EnterFrame(w, pid, pkg, now, a.enter, q);
  }

  /** An event changes no process but its own. */
  lemma EventFrame(w: World, ev: ProcessEvent, now: int, c: Setting, a: Answers, q: int)
    requires q != ev.pid
    ensures SameAt(w, AfterEvent(w, ev, now, c, a).0, q)
  {
    hide Interested, AfterFullScan, AfterSingle, AfterRemove, ScanOf;
    var pkg := PkgOf(ev, a);
    RemoveFrame(w, ev.pid, a.enter.rmdirOk, q);
    FullScanFrame(w, ev.pid, pkg, now, c, a, q);
    FullScanFrame(AfterRemove(w, ev.pid, a.enter.rmdirOk), ev.pid, pkg, now, c, a, q);
    SingleFrame(w, ev.pid, pkg, ev.tid, now, c, a, q);
  }

  /**
   After an Exec of a package of interest the process is known under its new package and holds the
   directories of this scan alone: whatever the old image held has been given back.
   */
  lemma ExecStartsAfresh(w: World, ev: ProcessEvent, now: int, c: Setting, a: Answers)
    requires ev.kind == EventKind.Exec && PkgOf(ev, a) != "" && Interested(c.rules, c.fnmatch, PkgOf(ev, a))
    ensures var w', pid := AfterEvent(w, ev, now, c, a).0, ev.pid;
            var dirs := ScanOf(AfterRemove(w, pid, a.enter.rmdirOk), pid, PkgOf(ev, a), now, c, a).dirs;
            && pid in w'.procs && w'.procs[pid].pkg == PkgOf(ev, a) && w'.procs[pid].startTime == a.enter.firstRead
            && w'.procs[pid].appliedDirs == (set d | d in dirs && d != "")
            && w'.procs[pid].appliedTids == Elements(a.tids)
  {
    hide Interested, ScanTids, Counted, AfterRelease;
    RemoveGone(w, ev.pid, a.enter.rmdirOk);
  }

  // ---------- the loops ----------

  function SettingOf(rs: RuleSet, topo: CpuTopology, rtAllowed: bool): Setting {
    Setting(rs.ix.rules, rs.fnmatch, topo, rtAllowed)
  }

  method RefreshProcessRules(tracker: StateTracker, pid: int, pkg: string, rs: RuleSet, now: int, rtAllowed: bool,
                             topo: CpuTopology, backend: CpusetBackend, a: Answers)
    returns (applied: nat, dirs: seq<string>)
    requires rs.Valid()
    modifies tracker, backend, rs`cache
    ensures rs.Valid()
    ensures tracker.State(backend) ==
      AfterRefresh(old(tracker.State(backend)), pid, pkg, now, SettingOf(rs, topo, rtAllowed), a)
    ensures var scan := ScanOf(old(tracker.State(backend)), pid, pkg, now, SettingOf(rs, topo, rtAllowed), a);
            applied == scan.applied && dirs == scan.dirs
  {
    hide ScanTids, AfterEnter, IndexOf;
    ghost var w0 := tracker.State(backend);
    var withThreads := rs.HasThreadRules(pkg);
    tracker.Enter(pid, pkg, now, a.enter, backend);
    ghost var entered := tracker.State(backend);
    var state := tracker.procs[pid];
    tracker.procs := tracker.procs[pid := state.(names := NameCache(map[], now))];
    var names;
    names, applied, dirs := ScanLoop(pid, pkg, rs, now, rtAllowed, topo, backend, a, state.names, withThreads);
    EnterTwice(w0, pid, pkg, now, a.enter, a.enter);
    EnterFast(tracker.State(backend), entered, pid, pkg, now, a.enter);
    tracker.Enter(pid, pkg, now, a.enter, backend);
    state := tracker.procs[pid];
    var tidSet := Elements(a.tids);
    tracker.procs := tracker.procs[pid := state.(names := names.Retain(tidSet), appliedTids := tidSet)];
  }

  lemma EnterFast(w: World, entered: World, pid: int, pkg: string, now: int, io: EnterIo)
    requires ActionOf(entered.procs, pid, pkg, io) == Fast && pid in entered.procs
    requires pid in w.procs && w.procs[pid].pkg == entered.procs[pid].pkg
    requires w.procs[pid].startTime == entered.procs[pid].startTime
    ensures AfterEnter(w, pid, pkg, now, io) == w
  {
  }

  method ScanLoop(pid: int, pkg: string, rs: RuleSet, now: int, rtAllowed: bool, topo: CpuTopology,
                  backend: CpusetBackend, a: Answers, cached: NameCache, withThreads: bool)
    returns (names: NameCache, applied: nat, dirs: seq<string>)
    requires rs.Valid() && withThreads == ThreadRules(rs.ix.rules, rs.fnmatch, pkg)
    modifies backend, rs`cache
    ensures rs.Valid()
    ensures ScanState(names, applied, dirs, backend.State()) ==
      ScanTids(ScanState(cached, 0, [], old(backend.State())), a.tids, pid, pkg, now, SettingOf(rs, topo, rtAllowed), a)
  {
    hide ScanOne, ThreadRules, Resolved, IndexOf;
    names, applied, dirs := cached, 0, [];
    ghost var start := ScanState(cached, 0, [], backend.State());
    ghost var c := SettingOf(rs, topo, rtAllowed);
    for k := 0 to |a.tids|
      invariant rs.Valid()
      invariant ScanState(names, applied, dirs, backend.State()) == ScanTids(start, a.tids[..k], pid, pkg, now, c, a)
    {
      ScanSnoc(start, a.tids, k, pid, pkg, now, c, a);
      names, applied, dirs := ScanThread(k, pid, pkg, rs, now, rtAllowed, topo, backend, a, names, applied, dirs,
        withThreads);
    }
    assert a.tids[..|a.tids|] == a.tids;
  }

  lemma ScanSnoc(start: ScanState, tids: seq<int>, k: nat, pid: int, pkg: string, now: int, c: Setting, a: Answers)
    requires k < |tids|
    ensures ScanTids(start, tids[..k + 1], pid, pkg, now, c, a) ==
      ScanOne(ScanTids(start, tids[..k], pid, pkg, now, c, a), k, pid, tids[k], pkg, now, c, a)
  {
    assert tids[..k + 1][..k] == tids[..k];
  }

  method ScanThread(k: nat, pid: int, pkg: string, rs: RuleSet, now: int, rtAllowed: bool, topo: CpuTopology,
                    backend: CpusetBackend, a: Answers, names0: NameCache, applied0: nat, dirs0: seq<string>,
                    withThreads: bool)
    returns (names: NameCache, applied: nat, dirs: seq<string>)
    requires rs.Valid() && k < |a.tids| && withThreads == ThreadRules(rs.ix.rules, rs.fnmatch, pkg)
    modifies backend, rs`cache
    ensures rs.Valid()
    ensures ScanState(names, applied, dirs, backend.State()) ==
      ScanOne(ScanState(names0, applied0, dirs0, old(backend.State())), k, pid, a.tids[k], pkg, now,
        SettingOf(rs, topo, rtAllowed), a)
  {
    hide ThreadRules, Resolved, IndexOf, Effects, Outcome;
    names, applied, dirs := names0, applied0, dirs0;
    var tid := a.tids[k];
    var tname := "";
    if withThreads {
      names := names.Lookup(tid, now, a.threadName(tid));
      tname := names.names[tid];
    }
    var policy := rs.Resolve(pkg, tname);
    if policy.Some? {
      var outcome := ApplyThread(tid, policy.value, topo, rtAllowed, a.thread(k), backend);
      backend.Log(Apply(pid, tid, policy.value.cpusetDir, outcome));
      if outcome == Exited || outcome == SkippedNoCpus {
      } else {
        applied := applied + 1;
        if policy.value.cpusetDir !in dirs {
          dirs := dirs + [policy.value.cpusetDir];
        }
      }
    }
  }

  method FullScan(tracker: StateTracker, pid: int, pkg: string, rs: RuleSet, now: int, rtAllowed: bool,
                  topo: CpuTopology, backend: CpusetBackend, a: Answers)
    returns (applied: nat)
    requires rs.Valid()
    modifies tracker, backend, rs`cache
    ensures rs.Valid()
    ensures tracker.State(backend) ==
      AfterFullScan(old(tracker.State(backend)), pid, pkg, now, SettingOf(rs, topo, rtAllowed), a)
    ensures applied == ScanOf(old(tracker.State(backend)), pid, pkg, now, SettingOf(rs, topo, rtAllowed), a).applied
  {
    hide AfterRefresh, ScanOf, AfterRegister, IndexOf;
    var dirs;
    applied, dirs := RefreshProcessRules(tracker, pid, pkg, rs, now, rtAllowed, topo, backend, a);
    tracker.RegisterDirs(pid, dirs, backend);
    if pid in tracker.procs {
      tracker.procs := tracker.procs[pid := tracker.procs[pid].(scanned := true, lastScan := now)];
    }
  }

  method ApplySingleTid(tracker: StateTracker, pid: int, pkg: string, tid: int, rs: RuleSet, now: int, rtAllowed: bool,
                        topo: CpuTopology, backend: CpusetBackend, a: Answers)
    returns (applied: nat)
    requires rs.Valid()
    modifies tracker, backend, rs`cache
    ensures rs.Valid()
    ensures (tracker.State(backend), applied) ==
      AfterSingle(old(tracker.State(backend)), pid, pkg, tid, now, SettingOf(rs, topo, rtAllowed), a)
  {
    hide ThreadRules, Resolved, IndexOf, Effects, Outcome, AfterRegister, AfterEnter;
    tracker.Enter(pid, pkg, now, a.enter, backend);
    ghost var entered := tracker.State(backend);
    var state := tracker.procs[pid];
    if tid in state.appliedTids {
      return 0;
    }
    var tname := "";
    var withThreads := rs.HasThreadRules(pkg);
    if withThreads {
      state := state.(names := state.names.Lookup(tid, now, a.threadName(tid)));
      tracker.procs := tracker.procs[pid := state];
      tname := state.names.names[tid];
    }
    var policy := rs.Resolve(pkg, tname);
    var noted := state.(appliedTids := state.appliedTids + {tid});
    if policy.None? {
      tracker.procs := tracker.procs[pid := noted];
      assert tracker.procs == entered.procs[pid := noted];
      return 0;
    }
    var outcome := ApplyThread(tid, policy.value, topo, rtAllowed, a.thread(0), backend);
    backend.Log(Apply(pid, tid, policy.value.cpusetDir, outcome));
    if outcome == Exited {
      tracker.procs := tracker.procs[pid := state];
      assert tracker.procs == entered.procs[pid := state];
      return 0;
    }
    tracker.procs := tracker.procs[pid := noted];
    assert tracker.procs == entered.procs[pid := noted];
    if outcome == SkippedNoCpus {
      return 0;
    }
    tracker.RegisterDirs(pid, [policy.value.cpusetDir], backend);
    return 1;
  }

  method HandleEvent(tracker: StateTracker, ev: ProcessEvent, rs: RuleSet, now: int, rtAllowed: bool,
                     topo: CpuTopology, backend: CpusetBackend, a: Answers)
    returns (applied: nat)
    requires rs.Valid()
    modifies tracker, backend, rs`cache
    ensures rs.Valid()
    ensures (tracker.State(backend), applied) ==
      AfterEvent(old(tracker.State(backend)), ev, now, SettingOf(rs, topo, rtAllowed), a)
  {
    hide Interested, IndexOf, AfterFullScan, AfterSingle, AfterRemove, ScanOf;
    if ev.kind == Exit {
      if ev.tid != ev.pid {
        tracker.RemoveTid(ev.pid, ev.tid, backend);
      } else {
        var _ := tracker.Remove(ev.pid, a.enter.rmdirOk, backend);
      }
      return 0;
    }
    if ev.kind == CpuMigrate {
      return 0;
    }
    var pkg := PkgOf(ev, a);
    if pkg == "" {
      return 0;
    }
    var interested := rs.IsInterested(pkg);
    if !interested {
      var _ := tracker.Remove(ev.pid, a.enter.rmdirOk, backend);
      return 0;
    }
    if ev.kind == ThreadClone && !NeedsFullScan(tracker.procs, ev.pid, now) {
      applied := ApplySingleTid(tracker, ev.pid, pkg, ev.tid, rs, now, rtAllowed, topo, backend, a);
      return;
    }
    if ev.kind == EventKind.Exec {
      var _ := tracker.Remove(ev.pid, a.enter.rmdirOk, backend);
    }
    applied := FullScan(tracker, ev.pid, pkg, rs, now, rtAllowed, topo, backend, a);
  }

  method HandleEvents(tracker: StateTracker, evs: seq<ProcessEvent>, rs: RuleSet, now: int, rtAllowed: bool,
                      topo: CpuTopology, backend: CpusetBackend, answers: nat -> Answers)
    returns (applied: nat)
    requires rs.Valid()
    modifies tracker, backend, rs`cache
    ensures rs.Valid()
    ensures (tracker.State(backend), applied) ==
      AfterEvents(old(tracker.State(backend)), evs, now, SettingOf(rs, topo, rtAllowed), answers)
  {
    hide IndexOf, AfterEvent;
    applied := 0;
    ghost var w0 := tracker.State(backend);
    for k := 0 to |evs|
      invariant rs.Valid()
      invariant (tracker.State(backend), applied) ==
        AfterEvents(w0, evs[..k], now, SettingOf(rs, topo, rtAllowed), answers)
    {
      assert evs[..k + 1][..k] == evs[..k];
      var n := HandleEvent(tracker, evs[k], rs, now, rtAllowed, topo, backend, answers(k));
      applied := applied + n;
    }
    assert evs[..|evs|] == evs;
  }

  /** One visit of the process list, in an arbitrary order. */
  method RelockAll(tracker: StateTracker, rs: RuleSet, now: int, rtAllowed: bool,
                   topo: CpuTopology, backend: CpusetBackend, io: int -> RelockIo)
    returns (applied: nat, ghost order: seq<int>)
    requires rs.Valid()
    modifies tracker, backend, rs`cache
    ensures rs.Valid()
    ensures Elements(order) == old(tracker.procs).Keys && Distinct(order)
    ensures (tracker.State(backend), applied) ==
      AfterRelock(old(tracker.State(backend)), order, now, SettingOf(rs, topo, rtAllowed), io)
  {
    hide IndexOf, AfterRelockOne;
    applied, order := 0, [];
    ghost var w0 := tracker.State(backend);
    var todo := tracker.procs.Keys;
    ghost var all := todo;
    assert Elements([]) == {};
    while todo != {}
      invariant todo <= all && Elements(order) == all - todo && Distinct(order)
      invariant rs.Valid()
      invariant (tracker.State(backend), applied) == AfterRelock(w0, order, now, SettingOf(rs, topo, rtAllowed), io)
      decreases todo
    {
      SomeMember(todo);
      var pid :| pid in todo;
      todo := todo - {pid};
      var n := RelockOne(tracker, pid, rs, now, rtAllowed, topo, backend, io(pid));
      applied := applied + n;
      ElementsSnoc(order, pid);
      assert (order + [pid])[..|order|] == order;
      order := order + [pid];
    }
  }

  method RelockOne(tracker: StateTracker, pid: int, rs: RuleSet, now: int, rtAllowed: bool,
                   topo: CpuTopology, backend: CpusetBackend, io: RelockIo)
    returns (applied: nat)
    requires rs.Valid()
    modifies tracker, backend, rs`cache
    ensures rs.Valid()
    ensures (tracker.State(backend), applied) ==
      AfterRelockOne(old(tracker.State(backend)), pid, now, SettingOf(rs, topo, rtAllowed), io)
  {
    hide IndexOf, AfterRefresh, ScanOf, AfterRegister, AfterRemove;
    if pid !in tracker.procs {
      return 0;
    }
    var pkg := tracker.procs[pid].pkg;
    if !io.alive {
      var _ := tracker.Remove(pid, io.answers.enter.rmdirOk, backend);
      return 0;
    }
    if !io.allow {
      return 0;
    }
    var dirs;
    applied, dirs := RefreshProcessRules(tracker, pid, pkg, rs, now, rtAllowed, topo, backend, io.answers);
    tracker.RegisterDirs(pid, dirs, backend);
  }

  /** Processes that no longer live are removed; the living stay. */
  method CleanupDead(tracker: StateTracker, alive: int -> bool, rmdirOk: int -> string -> bool, backend: CpusetBackend)
    returns (removed: nat, ghost order: seq<int>)
    modifies tracker, backend
    ensures tracker.State(backend) == RemoveAll(old(tracker.State(backend)), order, rmdirOk)
    ensures tracker.procs == Living(old(tracker.procs), alive)
    ensures removed == |old(tracker.procs)| - |tracker.procs|
  {
    hide RemoveAll, AfterRemove, Elements, DeadAmong, Living;
    removed, order := 0, [];
    ghost var w0 := tracker.State(backend);
    var todo := tracker.procs.Keys;
    CleanupStarts(w0, alive, rmdirOk);
    while todo != {}
      invariant todo <= w0.procs.Keys
      invariant Elements(order) == DeadAmong(w0.procs.Keys - todo, alive)
      invariant tracker.State(backend) == RemoveAll(w0, order, rmdirOk)
      invariant removed == |w0.procs| - |tracker.procs|
      decreases todo
    {
      SomeMember(todo);
      var pid :| pid in todo;
      CleanupSteps(w0, order, todo, pid, alive, rmdirOk);
      todo := todo - {pid};
      var gone := RemoveIfDead(tracker, pid, alive(pid), rmdirOk(pid), backend);
      if !alive(pid) {
        order := order + [pid];
      }
      if gone {
        removed := removed + 1;
      }
    }
    CleanupEnds(w0, order, alive, rmdirOk);
    assert w0.procs.Keys - todo == w0.procs.Keys;
  }

  function Living(procs: Procs, alive: int -> bool): Procs { map p | p in procs && alive(p) :: procs[p] }

  lemma CleanupStarts(w: World, alive: int -> bool, rmdirOk: int -> string -> bool)
    ensures Elements([]) == DeadAmong(w.procs.Keys - w.procs.Keys, alive) && RemoveAll(w, [], rmdirOk) == w
  {
    assert Elements([]) == {} && DeadAmong({}, alive) == {} && w.procs.Keys - w.procs.Keys == {};
  }

  lemma CleanupSteps(w: World, order: seq<int>, todo: set<int>, pid: int, alive: int -> bool,
                     rmdirOk: int -> string -> bool)
    requires pid in todo && todo <= w.procs.Keys && Elements(order) == DeadAmong(w.procs.Keys - todo, alive)
    ensures RemoveAll(w, order + [pid], rmdirOk) == AfterRemove(RemoveAll(w, order, rmdirOk), pid, rmdirOk(pid))
    ensures Elements(if alive(pid) then order else order + [pid]) == DeadAmong(w.procs.Keys - (todo - {pid}), alive)
  {
    hide RemoveAll, AfterRemove;
    RemoveAllSnoc(w, order, pid, rmdirOk);
    ElementsSnoc(order, pid);
    DeadOneMore(w.procs.Keys - todo, pid, alive);
    assert w.procs.Keys - (todo - {pid}) == w.procs.Keys - todo + {pid};
  }

  lemma CleanupEnds(w: World, order: seq<int>, alive: int -> bool, rmdirOk: int -> string -> bool)
    ensures Elements(order) == DeadAmong(w.procs.Keys, alive) ==>
      RemoveAll(w, order, rmdirOk).procs == Living(w.procs, alive)
  {
    hide RemoveAll, AfterRemove;
    RemoveAllProcs(w, order, rmdirOk);
  }

  method RemoveIfDead(tracker: StateTracker, pid: int, alive: bool, rmdirOk: string -> bool, backend: CpusetBackend)
    returns (removed: bool)
    modifies tracker, backend
    ensures tracker.State(backend) ==
      if alive then old(tracker.State(backend)) else AfterRemove(old(tracker.State(backend)), pid, rmdirOk)
    ensures |tracker.procs| == |old(tracker.procs)| - if removed then 1 else 0
  {
    hide AfterRemove;
    removed := false;
    if !alive {
      RemoveGone(tracker.State(backend), pid, rmdirOk);
      ghost var before := tracker.procs;
      removed := tracker.Remove(pid, rmdirOk, backend);
      if removed {
        FewerByOne(before, pid);
      } else {
        assert before - {pid} == before;
      }
    }
  }

  ghost function DeadAmong(pids: set<int>, alive: int -> bool): set<int> { set p | p in pids && !alive(p) }

  lemma DeadOneMore(pids: set<int>, pid: int, alive: int -> bool)
    requires pid !in pids
    ensures DeadAmong(pids + {pid}, alive) ==
      if alive(pid) then DeadAmong(pids, alive) else DeadAmong(pids, alive) + {pid}
    ensures pid !in DeadAmong(pids, alive)
  {
  }

  lemma RemoveAllSnoc(w: World, order: seq<int>, pid: int, rmdirOk: int -> string -> bool)
    ensures RemoveAll(w, order + [pid], rmdirOk) == AfterRemove(RemoveAll(w, order, rmdirOk), pid, rmdirOk(pid))
  {
    assert (order + [pid])[..|order|] == order;
  }

  lemma FewerByOne(procs: Procs, pid: int)
    requires pid in procs
    ensures |procs - {pid}| == |procs| - 1
  {
    assert (procs - {pid}).Keys == procs.Keys - {pid};
  }
}
