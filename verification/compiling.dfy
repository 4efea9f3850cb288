/** What compiling a rule means: which rules are refused, and where each field of an accepted one comes from. */
module Compiling {
  import opened Prelude
  import opened CpuText
  import opened Patterns
  import opened Rules
  import opened RuleSets

  /** The scheduling policy that goes by a name. */
  predicate Names(name: string, policy: SchedPolicy) {
    || (policy == Other && name in {"other", "normal", ""})
    || (policy == Fifo && name == "fifo") || (policy == Rr && name == "rr")
    || (policy == Batch && name == "batch") || (policy == Idle && name == "idle")
  }

  /** A scheduling text is a policy name, or one with a colon and a priority; other names set nothing. */
  lemma SchedMeaning(name: string, prio: string)
    requires ':' !in name
    ensures var plain, full := ParseSched(Some(name)), ParseSched(Some(name + ":" + prio));
            && (plain.None? <==> forall p :: !Names(name, p)) && (full.None? <==> plain.None?)
            && (plain.Some? ==> Names(name, plain.value.policy) && plain.value.prio == None)
            && (full.Some? ==> Names(name, full.value.policy) && full.value.prio == ParseI32(prio))
    ensures ParseSched(None) == None
  {
    ColonAt(name, prio);
    hide FindColon, ParseI32;
    assert name[..|name|] == name && (name + ":" + prio)[..|name|] == name && (name + ":" + prio)[|name| + 1..] == prio;
    SchedTable(name);
  }

  lemma SchedTable(name: string)
    ensures SchedFromName(name).None? <==> forall p :: !Names(name, p)
    ensures SchedFromName(name).Some? ==> Names(name, SchedFromName(name).value)
  {
    assert Names("other", Other) && Names("normal", Other) && Names("", Other);
    assert Names("fifo", Fifo) && Names("rr", Rr) && Names("batch", Batch) && Names("idle", Idle);
  }

  lemma {:induction false} ColonAt(name: string, prio: string)
    requires ':' !in name
    ensures FindColon(name) == |name| && FindColon(name + ":" + prio) == |name|
  {
    if name != "" {
      ColonAt(name[1..], prio);
      assert (name + ":" + prio)[1..] == name[1..] + ":" + prio;
    }
  }

  /** A priority is a signed decimal number of 32 bits. */
  lemma PrioMeaning(n: nat)
    ensures ParseI32(Show(n)) == ParseI32("+" + Show(n))
    ensures ParseI32(Show(n)) == if n <= 0x7fff_ffff then Some(n) else None
    ensures ParseI32("-" + Show(n)) == if n <= 0x8000_0000 then Some(-(n as int)) else None
  {
    ValueOfShow(n);
    hide Show, Value;
    assert ("+" + Show(n))[1..] == Show(n) && ("-" + Show(n))[1..] == Show(n);
  }

  lemma PrioJunk(s: string, i: nat)
    requires i < |s| && !('0' <= s[i] <= '9') && (i > 0 || (s[0] != '+' && s[0] != '-'))
    ensures ParseI32(s) == None && ParseI32("") == None
  {
    if s[0] == '+' || s[0] == '-' {
      assert s[1..][i - 1] == s[i];
    }
  }

  /**
   What compiling a rule means: which rules are refused, in which order of reasons, and where each field
   of an accepted rule comes from.
   */
  lemma CompileMeaning(rc: RuleConfig, present: CpuSet)
    ensures var o, named := CompileRule(rc, present), Parse(rc.cpus, None);
            var pkgOk := rc.pkg != "" && ByteLen(rc.pkg) < 128;
            && (o == Rejected(BadPackageLength) <==> !pkgOk)
            && (o == Rejected(BadThreadLength) <==> pkgOk && ByteLen(rc.thread) >= 32)
            && (o == Rejected(NoCpus) <==> pkgOk && ByteLen(rc.thread) < 32 && rc.cpus != "" && named * present == {})
            && (o.Accepted? ==>
                 var (r, spec) := (o.rule, ParseSched(rc.sched));
                 && r.pkg == rc.pkg && r.thread == rc.thread && r.patternOk == ('\0' !in rc.thread)
                 && r.policy.cpus == named * present && r.policy.cpusetDir == RangeString(named * present)
                 && r.policy.nice == rc.nice && r.policy.uclampMin == rc.uclampMin && r.policy.uclampMax == rc.uclampMax
                 && (spec.None? ==> r.policy.sched == None && r.policy.schedPrio == None)
                 && (spec.Some? ==> r.policy.sched == Some(spec.value.policy) && r.policy.schedPrio == spec.value.prio))
  {
    hide RangeString, ParseSched, ByteLen, PartsCpus, Split;
  }
}
