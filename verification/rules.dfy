/** Policies, rule sources and compiled rules. */
module Rules {
  import opened Prelude
  import opened CpuText

  datatype SchedPolicy = Other | Fifo | Rr | Batch | Idle
  {
    /** Real-time policies need CAP_SYS_NICE. */
    predicate IsRt() { Fifo? || Rr? }
  }

  datatype Policy = Policy(
    cpus: CpuSet,
    cpusetDir: string,
    sched: Option<SchedPolicy>,
    schedPrio: Option<int>,
    nice: Option<int>,
    uclampMin: Option<nat>,
    uclampMax: Option<nat>)

  datatype RuleSource = Global | Profile | Group | PackageWildcard | PackageExact | ThreadType | ThreadExact
  {
    function Priority(): nat {
      match this
      case Global => 10
      case Profile => 20
      case Group => 30
      case PackageWildcard => 40
      case PackageExact => 50
      case ThreadType => 60
      case ThreadExact => 70
    }
  }

  /** No two sources share a priority, so a priority group is a source group. */
  lemma PriorityInjective(a: RuleSource, b: RuleSource)
    ensures a.Priority() == b.Priority() <==> a == b
  {
  }

  /** Each source outranks those listed before it; in particular an exact package name outranks a pattern. */
  lemma SourceOrder()
    ensures Global.Priority() < Profile.Priority() < Group.Priority() < PackageWildcard.Priority()
    ensures PackageWildcard.Priority() < PackageExact.Priority() < ThreadType.Priority() < ThreadExact.Priority()
  {
  }

  datatype RuleMatch = RuleMatch(index: nat, source: RuleSource)

  /** `patternOk` is false when the thread name holds a NUL byte, so that no C pattern could be made of it. */
  datatype CompiledRule = CompiledRule(pkg: string, thread: string, patternOk: bool, policy: Policy)
}
