/** Applying a policy to one thread: the affinity mask that is set, and the outcome reported. */
module ThreadPolicy {
  import opened Prelude
  import opened CpuText
  import opened Rules
  import opened Backend

  const ESRCH := 3
  const EPERM := 1
  const EINVAL := 22

  datatype CpuTopology = CpuTopology(online: CpuSet, cpusetEnabled: bool, baseCpusetFd: int)

  predicate UsesCpusets(topo: CpuTopology) { topo.cpusetEnabled && topo.baseCpusetFd != -1 }

  /** What the kernel answers while one thread is treated. A None error number is success. */
  datatype ThreadIo = ThreadIo(
    mkdirOk: bool,
    current: Option<CpuSet>,
    allowed: Option<CpuSet>,
    setAffinity: Option<int>,
    setScheduler: Option<int>,
    uclampSupported: bool,
    setUclamp: Option<int>)

  function Online(cpus: CpuSet, topo: CpuTopology): CpuSet { if topo.online != {} then cpus * topo.online else cpus }

  function Target(cpus: CpuSet, topo: CpuTopology, allowed: Option<CpuSet>): CpuSet {
    if allowed.Some? then Online(cpus, topo) * allowed.value else Online(cpus, topo)
  }

  /**
   The mask handed to the kernel, if the kernel is asked at all. It is never empty, and holds exactly
   the requested CPUs that are online (where that is known) and allowed (where that is readable).
   */
  function MaskSet(cpus: CpuSet, topo: CpuTopology, io: ThreadIo): (mask: Option<CpuSet>)
    ensures mask.Some? ==> mask.value != {} && forall c :: c in mask.value <==>
      c in cpus && (topo.online == {} || c in topo.online) && (io.allowed.Some? ==> c in io.allowed.value)
    ensures mask.None? <==> io.current == Some(cpus) || forall c :: c in cpus ==>
      (topo.online != {} && c !in topo.online) || (io.allowed.Some? && c !in io.allowed.value)
  {
    if io.current == Some(cpus) || Target(cpus, topo, io.allowed) == {} then None
    else Some(Target(cpus, topo, io.allowed))
  }

  /** The allowed set takes away some of the online target. */
  predicate Shrunk(cpus: CpuSet, topo: CpuTopology, io: ThreadIo) {
    io.allowed.Some? && !(Online(cpus, topo) <= io.allowed.value)
  }

  function AffinityOutcome(cpus: CpuSet, topo: CpuTopology, io: ThreadIo): ApplyOutcome {
    if cpus == {} then SkippedNoCpus
    else if io.current == Some(cpus) then Applied
    else if Target(cpus, topo, io.allowed) == {} then (if io.allowed.Some? then BlockedByCgroup else SkippedNoCpus)
    else if io.setAffinity == Some(ESRCH) then Exited
    else if Shrunk(cpus, topo, io) then (if io.setAffinity.None? then Downgraded else Failed)
    else if io.setAffinity.None? then Applied
    else if io.setAffinity == Some(EINVAL) then Einval
    else if io.setAffinity == Some(EPERM) then BlockedByPerm
    else Failed
  }

  function Outcome(p: Policy, topo: CpuTopology, rtAllowed: bool, io: ThreadIo): ApplyOutcome {
    var affinity := AffinityOutcome(p.cpus, topo, io);
    if affinity == Exited || (p.sched.Some? && p.sched.value.IsRt() && !rtAllowed) then affinity
    else
      var sched :=
        if p.sched.None? || io.setScheduler.None? then affinity
        else if io.setScheduler == Some(ESRCH) then Exited else BlockedByPerm;
      if (p.uclampMin.Some? || p.uclampMax.Some?) && io.uclampSupported && io.setUclamp == Some(ESRCH) then Exited
      else sched
  }

  /** The effect on directories and the affinity call. */
  function Effects(s: Store, tid: int, p: Policy, topo: CpuTopology, io: ThreadIo): Store {
    var s1 := if p.cpus != {} && UsesCpusets(topo) && p.cpusetDir != "" then Ensure(s, p.cpusetDir, io.mkdirOk) else s;
    var mask := MaskSet(p.cpus, topo, io);
    if mask.Some? then Record(s1, SetAffinity(tid, mask.value)) else s1
  }

  // ---------- what the outcomes mean ----------

  /**
   The outcome of placing a thread, by the mask, the error number and the allowed set. The kernel is
   asked unless there is nothing to do; a mask that lost CPUs to the allowed set counts as a downgrade.
   */
  lemma AffinityMeaning(cpus: CpuSet, topo: CpuTopology, io: ThreadIo)
    ensures var online: set<nat> := set c | c in cpus && (topo.online == {} || c in topo.online);
            var mask: set<nat> := set c | c in online && (io.allowed.Some? ==> c in io.allowed.value);
            var open := cpus != {} && io.current != Some(cpus);
            var asked := open && mask != {};
            var o, err := AffinityOutcome(cpus, topo, io), io.setAffinity;
            && (o == Applied <==> (cpus != {} && io.current == Some(cpus)) || (asked && mask == online && err == None))
            && (o == Downgraded <==> asked && mask < online && err == None)
            && (o == Exited <==> asked && err == Some(3))
            && (o == Einval <==> asked && mask == online && err == Some(22))
            && (o == BlockedByPerm <==> asked && mask == online && err == Some(1))
            && (o == Failed <==> asked && err.Some? && err.value != 3 && (mask < online || err.value !in {1, 22}))
            && (o == BlockedByCgroup <==> open && io.allowed.Some? && mask == {})
            && (o == SkippedNoCpus <==> cpus == {} || (open && io.allowed.None? && mask == {}))
  {
    var online: set<nat> := set c | c in cpus && (topo.online == {} || c in topo.online);
    var mask: set<nat> := set c | c in online && (io.allowed.Some? ==> c in io.allowed.value);
    assert Online(cpus, topo) == online && Target(cpus, topo, io.allowed) == mask <= online;
    assert Shrunk(cpus, topo, io) <==> mask < online;
  }

  /**
   The outcome reported for a thread: gone if any of the three steps finds it gone; the scheduler may turn
   a success into a refusal. Without the right to real-time scheduling the last two steps are skipped.
   */
  lemma OutcomeMeaning(p: Policy, topo: CpuTopology, rtAllowed: bool, io: ThreadIo)
    ensures var a, o := AffinityOutcome(p.cpus, topo, io), Outcome(p, topo, rtAllowed, io);
            var further := p.sched !in {Some(Fifo), Some(Rr)} || rtAllowed;
            var clamped := (p.uclampMin.Some? || p.uclampMax.Some?) && io.uclampSupported;
            var gone := (p.sched.Some? && io.setScheduler == Some(3)) || (clamped && io.setUclamp == Some(3));
            var refused := p.sched.Some? && io.setScheduler.Some? && io.setScheduler != Some(3);
            && (o == Exited <==> a == Exited || (further && gone))
            && (o == BlockedByPerm <==> o != Exited && (a == BlockedByPerm || (further && refused)))
            && (o != Exited && o != BlockedByPerm ==> o == a)
  {
    hide AffinityOutcome;
  }

  /** What treating a thread does: at most one directory is asked for, then at most one mask set. */
  lemma EffectsMeaning(s: Store, tid: int, p: Policy, topo: CpuTopology, io: ThreadIo)
    ensures var t, d := Effects(s, tid, p, topo, io), p.cpusetDir;
            var wanted := p.cpus != {} && topo.cpusetEnabled && topo.baseCpusetFd != -1 && d != "";
            var mask := MaskSet(p.cpus, topo, io);
            && t.ensured == s.ensured + (if wanted then {d} else {})
            && t.disk == s.disk + (if wanted && d !in s.ensured && io.mkdirOk then {d} else {})
            && t.log == s.log
                 + (if !wanted then [] else if d in s.ensured then [Cached(d, d in s.disk)]
                   else [Mkdir(d, d in t.disk)])
                 + (if mask.Some? then [SetAffinity(tid, mask.value)] else [])
  {
    hide MaskSet;
  }

  /** Clearing the offline CPUs one by one. */
  method OnlineFilter(cpus: CpuSet, topo: CpuTopology) returns (effective: CpuSet)
    ensures effective == Online(cpus, topo)
  {
    effective := cpus;
    if topo.online != {} {
      for i := 0 to CPU_SETSIZE
        invariant forall c: nat :: c in effective <==> c in cpus && (c < i ==> c in topo.online)
      {
        if i in effective && i !in topo.online {
          effective := effective - {i};
        }
      }
    }
  }

  method ApplyAffinity(tid: int, p: Policy, topo: CpuTopology, io: ThreadIo, backend: CpusetBackend)
    returns (outcome: ApplyOutcome)
    modifies backend
    ensures outcome == AffinityOutcome(p.cpus, topo, io)
    ensures backend.State() == Effects(old(backend.State()), tid, p, topo, io)
  {
    hide RangeString;
    if p.cpus == {} {
      return SkippedNoCpus;
    }
    if topo.cpusetEnabled && topo.baseCpusetFd != -1 {
      if p.cpusetDir != "" {
        backend.EnsureDir(p.cpusetDir, io.mkdirOk);
      }
    }
    if io.current.Some? && io.current.value == p.cpus {
      return Applied;
    }
    var effective := OnlineFilter(p.cpus, topo);
    if io.allowed.Some? {
      var before := RangeString(effective);
      ghost var online := effective;
      effective := effective * io.allowed.value;
      if effective == {} {
        return BlockedByCgroup;
      }
      var after := RangeString(effective);
      RangeStringInjective(online, effective);
      if before != after {
        var err := backend.SetAffinityOf(tid, effective, io.setAffinity);
        if err.Some? {
          return if err.value == ESRCH then Exited else Failed;
        }
        return Downgraded;
      }
    }
    if effective == {} {
      return SkippedNoCpus;
    }
    var err := backend.SetAffinityOf(tid, effective, io.setAffinity);
    match err {
      case None => return Applied;
      case Some(errno) =>
        return if errno == ESRCH then Exited
               else if errno == EINVAL then Einval
               else if errno == EPERM then BlockedByPerm
               else Failed;
    }
  }

  method ApplySched(p: Policy, io: ThreadIo) returns (failure: Option<ApplyOutcome>)
    ensures failure ==
      match io.setScheduler case None => None case Some(e) => Some(if e == ESRCH then Exited else BlockedByPerm)
  {
    if io.setScheduler.Some? {
      if io.setScheduler.value == ESRCH {
        return Some(Exited);
      }
      return Some(BlockedByPerm);
    }
    return None;
  }

  method ApplyThread(tid: int, p: Policy, topo: CpuTopology, rtAllowed: bool, io: ThreadIo, backend: CpusetBackend)
    returns (outcome: ApplyOutcome)
    modifies backend
    ensures outcome == Outcome(p, topo, rtAllowed, io)
    ensures backend.State() == Effects(old(backend.State()), tid, p, topo, io)
  {
    hide AffinityOutcome, Effects;
    outcome := ApplyAffinity(tid, p, topo, io, backend);
    if outcome == Exited {
      return;
    }
    if p.sched.Some? {
      if p.sched.value.IsRt() && !rtAllowed {
        return;
      }
      var failure := ApplySched(p, io);
      if failure.Some? {
        outcome := failure.value;
      }
    }
    if (p.uclampMin.Some? || p.uclampMax.Some?) && io.uclampSupported {
      if io.setUclamp == Some(ESRCH) {
        outcome := Exited;
      }
    }
  }
}
