/**
 Compiling rules into an index, looking packages up through a cache, and resolving
 a (package, thread) pair to a policy. The indexed and cached form is proved equal
 to a plain scan of the compiled rules in order.
 */
module RuleSets {
  import opened Prelude
  import opened CpuText
  import opened Patterns
  import opened Rules
  import opened Merge

  const MAX_THREAD_LEN: nat := 32

  /** POSIX fnmatch, taken as an arbitrary fixed predicate on (pattern, text). */
  type Fnmatch = (string, string) -> bool

  // ---------- configuration rules ----------

  datatype RuleConfig = RuleConfig(
    pkg: string,
    thread: string,
    cpus: string,
    sched: Option<string>,
    nice: Option<int>,
    uclampMin: Option<nat>,
    uclampMax: Option<nat>)

  datatype SchedSpec = SchedSpec(policy: SchedPolicy, prio: Option<int>)

  function SchedFromName(s: string): Option<SchedPolicy> {
    if s == "other" || s == "normal" || s == "" then Some(Other)
    else if s == "fifo" then Some(Fifo)
    else if s == "rr" then Some(Rr)
    else if s == "batch" then Some(Batch)
    else if s == "idle" then Some(Idle)
    else None
  }

  /** Parsing a 32-bit signed number: an optional sign, digits, no overflow. */
  function ParseI32(s: string): Option<int> {
    var signed := |s| > 0 && (s[0] == '+' || s[0] == '-');
    var digits := if signed then s[1..] else s;
    if digits == "" || !AllDigits(digits) then None
    else
      var n: int := Value(digits);
      var v := if signed && s[0] == '-' then -n else n;
      if -0x8000_0000 <= v < 0x8000_0000 then Some(v) else None
  }

  function FindColon(s: string): (pos: nat)
    ensures pos <= |s|
  {
    if s == "" || s[0] == ':' then 0 else 1 + FindColon(s[1..])
  }

  /** "fifo:60" is a policy name and a priority; an unknown name sets nothing. */
  function ParseSched(sched: Option<string>): Option<SchedSpec> {
    if sched.None? then None
    else
      var s := sched.value;
      var pos := FindColon(s);
      var prio := if pos < |s| then ParseI32(s[pos + 1..]) else None;
      match SchedFromName(s[..pos])
      case None => None
      case Some(policy) => Some(SchedSpec(policy, prio))
  }

  datatype RuleReason = BadPackageLength | BadThreadLength | NoCpus

  datatype RuleError = RuleError(index: nat, reason: RuleReason)

  datatype CompileOutcome = Accepted(rule: CompiledRule) | Rejected(reason: RuleReason)

  function CompileRule(rc: RuleConfig, present: CpuSet): CompileOutcome {
    if rc.pkg == "" || ByteLen(rc.pkg) >= MAX_PKG_LEN then Rejected(BadPackageLength)
    else if ByteLen(rc.thread) >= MAX_THREAD_LEN then Rejected(BadThreadLength)
    else
      var cpus := Parse(rc.cpus, Some(present));
      if cpus == {} && rc.cpus != "" then Rejected(NoCpus)
      else
        var spec := ParseSched(rc.sched);
        Accepted(CompiledRule(rc.pkg, rc.thread, !HasNul(rc.thread),
          Policy(cpus, RangeString(cpus),
                 if spec.Some? then Some(spec.value.policy) else None,
                 if spec.Some? then spec.value.prio else None,
                 rc.nice, rc.uclampMin, rc.uclampMax)))
  }

  function AcceptedRules(present: CpuSet): RuleConfig -> seq<CompiledRule> {
    (rc: RuleConfig) => match CompileRule(rc, present) case Accepted(r) => [r] case Rejected(_) => []
  }

  /** The rules that compile, in configuration order. */
  function Compiled(configs: seq<RuleConfig>, present: CpuSet): seq<CompiledRule> {
    FlatMap(AcceptedRules(present), configs)
  }

  function Errors(configs: seq<RuleConfig>, present: CpuSet): seq<RuleError> {
    if configs == [] then []
    else
      var n := |configs| - 1;
      Errors(configs[..n], present) +
      match CompileRule(configs[n], present)
      case Accepted(_) => []
      case Rejected(reason) => [RuleError(n, reason)]
  }

  // ---------- the index ----------

  datatype WildcardRule = WildcardRule(pattern: string, specificity: nat, ruleIdxs: seq<nat>)

  datatype Index = Index(
    rules: seq<CompiledRule>,
    exact: map<string, seq<nat>>,
    wildcards: seq<WildcardRule>,
    pkgs: seq<string>)

  /** Positions of the rules for one package text, in compile order. */
  function Positions(rules: seq<CompiledRule>, pkg: string): (ps: seq<nat>)
    ensures forall k :: 0 <= k < |ps| ==> ps[k] < |rules|
  {
    if rules == [] then []
    else
      var n := |rules| - 1;
      if rules[n].pkg == pkg then Positions(rules[..n], pkg) + [n] else Positions(rules[..n], pkg)
  }

  /** In increasing order, exactly the positions whose rule carries the package text. */
  lemma {:induction false} PositionsMeaning(rules: seq<CompiledRule>, pkg: string)
    ensures forall i :: i in Positions(rules, pkg) <==> 0 <= i < |rules| && rules[i].pkg == pkg
    ensures forall j, k :: 0 <= j < k < |Positions(rules, pkg)| ==> Positions(rules, pkg)[j] < Positions(rules, pkg)[k]
  {
    if rules != [] {
      PositionsMeaning(rules[..|rules| - 1], pkg);
    }
  }

  predicate IsPattern(pkg: string) { ContainsWildcard(pkg) && !HasNul(pkg) }

  /** The distinct wildcard patterns, first compiled first. */
  function PatternsOf(rules: seq<CompiledRule>): seq<string> {
    if rules == [] then []
    else
      var n := |rules| - 1;
      var before := PatternsOf(rules[..n]);
      if IsPattern(rules[n].pkg) && rules[n].pkg !in before then before + [rules[n].pkg] else before
  }

  /** The wildcard package texts of the rules, each once. */
  lemma {:induction false} PatternsMeaning(rules: seq<CompiledRule>)
    ensures forall p :: p in PatternsOf(rules) <==> IsPattern(p) && exists r :: r in rules && r.pkg == p
    ensures forall j, k :: 0 <= j < k < |PatternsOf(rules)| ==> PatternsOf(rules)[j] != PatternsOf(rules)[k]
  {
    if rules != [] {
      var n := |rules| - 1;
      assert rules == rules[..n] + [rules[n]];
      PatternsMeaning(rules[..n]);
      assert rules[n] in rules;
    }
  }

  lemma {:induction false} OnlyPatterns(rules: seq<CompiledRule>, p: string)
    requires !IsPattern(p)
    ensures p !in PatternsOf(rules)
  {
    PatternsMeaning(rules);
  }

  function PkgsOf(rules: seq<CompiledRule>): seq<string> {
    if rules == [] then []
    else
      var before := PkgsOf(rules[..|rules| - 1]);
      var pkg := rules[|rules| - 1].pkg;
      if pkg in before then before else before + [pkg]
  }

  function ExactNames(rules: seq<CompiledRule>): set<string> {
    set r | r in rules && !ContainsWildcard(r.pkg) :: r.pkg
  }

  function ExactOf(rules: seq<CompiledRule>): map<string, seq<nat>> {
    map p | p in ExactNames(rules) :: Positions(rules, p)
  }

  function GroupOf(rules: seq<CompiledRule>, pattern: string): WildcardRule {
    WildcardRule(pattern, Specificity(pattern), Positions(rules, pattern))
  }

  function WildcardsOf(rules: seq<CompiledRule>): (ws: seq<WildcardRule>)
    ensures |ws| == |PatternsOf(rules)|
    ensures forall k :: 0 <= k < |ws| ==> ws[k] == GroupOf(rules, PatternsOf(rules)[k])
  {
    var ps := PatternsOf(rules);
    seq(|ps|, k requires 0 <= k < |ps| => GroupOf(rules, ps[k]))
  }

  function IndexOf(rules: seq<CompiledRule>): Index {
    Index(rules, ExactOf(rules), WildcardsOf(rules), PkgsOf(rules))
  }

  lemma PositionsSnoc(rules: seq<CompiledRule>, r: CompiledRule, pkg: string)
    ensures Positions(rules + [r], pkg) ==
      if r.pkg == pkg then Positions(rules, pkg) + [|rules|] else Positions(rules, pkg)
  {
    assert (rules + [r])[..|rules|] == rules;
  }

  lemma PatternsSnoc(rules: seq<CompiledRule>, r: CompiledRule)
    ensures PatternsOf(rules + [r]) ==
      if IsPattern(r.pkg) && r.pkg !in PatternsOf(rules) then PatternsOf(rules) + [r.pkg] else PatternsOf(rules)
  {
    assert (rules + [r])[..|rules|] == rules;
  }

  lemma {:induction false} NoPositions(rules: seq<CompiledRule>, pkg: string)
    requires forall r :: r in rules ==> r.pkg != pkg
    ensures Positions(rules, pkg) == []
  {
    if rules != [] {
      assert rules[|rules| - 1] in rules;
      NoPositions(rules[..|rules| - 1], pkg);
    }
  }

  lemma ExactSnoc(rules: seq<CompiledRule>, r: CompiledRule)
    ensures ExactOf(rules + [r]) ==
      if ContainsWildcard(r.pkg) then ExactOf(rules)
      else ExactOf(rules)[r.pkg := (if r.pkg in ExactOf(rules) then ExactOf(rules)[r.pkg] else []) + [|rules|]]
  {
    hide Positions;
    forall p { PositionsSnoc(rules, r, p); }
    NewName(rules, r);
    ExactNamesSnoc(rules, r);
  }

  lemma ExactNamesSnoc(rules: seq<CompiledRule>, r: CompiledRule)
    ensures ExactNames(rules + [r]) == ExactNames(rules) + if ContainsWildcard(r.pkg) then {} else {r.pkg}
  {
    forall q | q in rules ensures q in rules + [r] {
    }
  }

  lemma {:induction false} NewName(rules: seq<CompiledRule>, r: CompiledRule)
    ensures r.pkg !in ExactNames(rules) && !ContainsWildcard(r.pkg) ==> Positions(rules, r.pkg) == []
    ensures r.pkg !in PatternsOf(rules) && IsPattern(r.pkg) ==> Positions(rules, r.pkg) == []
  {
    hide PatternsOf, Positions;
    PatternsMeaning(rules);
    if forall q :: q in rules ==> q.pkg != r.pkg {
      NoPositions(rules, r.pkg);
    }
  }

  lemma GroupKept(rules: seq<CompiledRule>, r: CompiledRule, k: nat)
    requires k < |PatternsOf(rules)| && PatternsOf(rules)[k] != r.pkg
    ensures k < |PatternsOf(rules + [r])| && WildcardsOf(rules + [r])[k] == WildcardsOf(rules)[k]
  {
    hide Positions, PatternsOf, Specificity;
    PatternsSnoc(rules, r);
    PositionsSnoc(rules, r, PatternsOf(rules)[k]);
  }

  /** A rule that is no wildcard pattern leaves the groups alone; a new pattern opens a group. */
  lemma {:induction false} WildcardsSnoc(rules: seq<CompiledRule>, r: CompiledRule)
    requires r.pkg !in PatternsOf(rules)
    ensures WildcardsOf(rules + [r]) ==
      if IsPattern(r.pkg) then WildcardsOf(rules) + [WildcardRule(r.pkg, Specificity(r.pkg), [|rules|])]
      else WildcardsOf(rules)
  {
    hide *;
    PatternsSnoc(rules, r);
    var before, after := WildcardsOf(rules), WildcardsOf(rules + [r]);
    assert |before| == |PatternsOf(rules)| && |after| == |PatternsOf(rules + [r])|;
    forall k | 0 <= k < |before| ensures after[k] == before[k] {
      assert PatternsOf(rules)[k] in PatternsOf(rules);
      GroupKept(rules, r, k);
    }
    if IsPattern(r.pkg) {
      NewGroup(rules, r);
      SnocIs(before, after, WildcardRule(r.pkg, Specificity(r.pkg), [|rules|]));
    }
  }

  lemma NewGroup(rules: seq<CompiledRule>, r: CompiledRule)
    requires r.pkg !in PatternsOf(rules) && IsPattern(r.pkg)
    ensures |WildcardsOf(rules + [r])| == |WildcardsOf(rules)| + 1
    ensures WildcardsOf(rules + [r])[|WildcardsOf(rules)|] == WildcardRule(r.pkg, Specificity(r.pkg), [|rules|])
  {
    hide Positions, PatternsOf, Specificity;
    PatternsSnoc(rules, r);
    NewName(rules, r);
    PositionsSnoc(rules, r, r.pkg);
    assert [] + [|rules|] == [|rules|];
  }

  /** A rule for a known pattern joins its group. */
  lemma {:induction false} WildcardsGrow(rules: seq<CompiledRule>, r: CompiledRule, k: nat)
    requires k < |PatternsOf(rules)| && PatternsOf(rules)[k] == r.pkg
    ensures var w := WildcardsOf(rules)[k];
            WildcardsOf(rules + [r]) == WildcardsOf(rules)[k := w.(ruleIdxs := w.ruleIdxs + [|rules|])]
  {
    hide Positions, PatternsOf, Specificity, WildcardsOf, IsPattern;
    PatternsSnoc(rules, r);
    PatternsMeaning(rules);
    PositionsSnoc(rules, r, r.pkg);
    forall j | 0 <= j < |PatternsOf(rules)| && j != k
      ensures WildcardsOf(rules + [r])[j] == WildcardsOf(rules)[j]
    {
      GroupKept(rules, r, j);
    }
  }

  /** Every accepted rule is in exactly one group, and once in it, unless its pattern holds a NUL byte. */
  lemma PlacedOnce(rules: seq<CompiledRule>, i: nat)
    requires i < |rules|
    ensures !ContainsWildcard(rules[i].pkg) ==> rules[i].pkg in ExactOf(rules)
    ensures forall p :: p in ExactOf(rules) ==> (i in ExactOf(rules)[p] <==> p == rules[i].pkg)
    ensures (exists k :: 0 <= k < |WildcardsOf(rules)| && i in WildcardsOf(rules)[k].ruleIdxs) <==>
      IsPattern(rules[i].pkg)
    ensures forall j, k :: 0 <= j < k < |WildcardsOf(rules)| ==>
      !(i in WildcardsOf(rules)[j].ruleIdxs && i in WildcardsOf(rules)[k].ruleIdxs)
  {
    hide Positions, PatternsOf;
    assert rules[i] in rules;
    PatternsMeaning(rules);
    forall p { PositionsMeaning(rules, p); }
    if IsPattern(rules[i].pkg) {
      var k :| 0 <= k < |PatternsOf(rules)| && PatternsOf(rules)[k] == rules[i].pkg;
      assert i in WildcardsOf(rules)[k].ruleIdxs;
    }
  }

  // ---------- the plain scan ----------

  predicate PackageMatches(fnmatch: Fnmatch, pattern: string, pkg: string) {
    ByteLen(pkg) < MAX_PKG_LEN && fnmatch(pattern, pkg)
  }

  predicate ThreadMatches(fnmatch: Fnmatch, pattern: string, thread: string) {
    ByteLen(thread) < MAX_THREAD_LEN && fnmatch(pattern, thread)
  }

  predicate Candidate(fnmatch: Fnmatch, pattern: string, pkg: string) {
    Specificity(pattern) > 0 && PackageMatches(fnmatch, pattern, pkg)
  }

  /** The first pattern of greatest positive score among those matching the package. */
  function Best(patterns: seq<string>, fnmatch: Fnmatch, pkg: string): (r: Option<nat>)
    ensures r.None? <==> forall q :: q in patterns ==> !Candidate(fnmatch, q, pkg)
    ensures r.Some? ==> r.value < |patterns| && Candidate(fnmatch, patterns[r.value], pkg)
    ensures r.Some? ==> forall k :: 0 <= k < |patterns| && Candidate(fnmatch, patterns[k], pkg) ==>
      Specificity(patterns[k]) < Specificity(patterns[r.value])
      || (Specificity(patterns[k]) == Specificity(patterns[r.value]) && r.value <= k)
  {
    if patterns == [] then None
    else
      var n := |patterns| - 1;
      assert patterns == patterns[..n] + [patterns[n]];
      var before := Best(patterns[..n], fnmatch, pkg);
      if Candidate(fnmatch, patterns[n], pkg)
         && (before.None? || Specificity(patterns[before.value]) < Specificity(patterns[n]))
      then Some(n) else before
  }

  function Winner(rules: seq<CompiledRule>, fnmatch: Fnmatch, pkg: string): Option<string> {
    match Best(PatternsOf(rules), fnmatch, pkg)
    case None => None
    case Some(k) => Some(PatternsOf(rules)[k])
  }

  /**
   A pattern can win for some package exactly if its score is not 0. A matching pattern of score 0 never
   wins: its rules are dead.
   */
  lemma DeadPattern(p: string)
    requires IsPattern(p) && ByteLen(p) < MAX_PKG_LEN
    ensures !Wins(p) <==> 10 * Specials(p) == 100 * PrefixBytes(p) + (|p| - Specials(p))
  {
    ZeroScore(p);
    hide *;
    NeverWins(p);
  }

  /** Among some rules, for some package and some meaning of patterns, the pattern wins. */
  ghost predicate Wins(p: string) {
    exists rules, fnmatch, pkg :: Winner(rules, fnmatch, pkg) == Some(p)
  }

  lemma NeverWins(p: string)
    requires IsPattern(p)
    ensures Wins(p) <==> Specificity(p) != 0
  {
    hide Specificity, Winner, IsPattern;
    if Specificity(p) == 0 {
      forall rules, fnmatch, pkg ensures Winner(rules, fnmatch, pkg) != Some(p) {
        ZeroNeverWins(rules, fnmatch, pkg, p);
      }
    } else {
      var r := CompiledRule(p, "", true, Policy({}, "", None, None, None, None, None));
      AloneWins(r);
      assert Winner([r], Everything, "") == Some(p);
    }
  }

  lemma ZeroNeverWins(rules: seq<CompiledRule>, fnmatch: Fnmatch, pkg: string, p: string)
    requires Specificity(p) == 0
    ensures Winner(rules, fnmatch, pkg) != Some(p)
  {
    hide Specificity, PatternsOf, PackageMatches, Best;
  }

  predicate Everything(pattern: string, text: string) { true }

  lemma AloneWins(r: CompiledRule)
    requires Specificity(r.pkg) > 0 && IsPattern(r.pkg)
    ensures Winner([r], Everything, "") == Some(r.pkg)
  {
    NoPatterns();
    assert ByteLen("") == 0;
    assert Candidate(Everything, r.pkg, "");
    PatternsSnoc([], r);
    assert [] + [r] == [r];
    hide *;
    OnlyCandidate(r.pkg, Everything, "");
    assert PatternsOf([r]) == [r.pkg];
    WinnerOf([r], Everything, "");
  }

  lemma OnlyCandidate(p: string, fnmatch: Fnmatch, pkg: string)
    requires Candidate(fnmatch, p, pkg)
    ensures Best([p], fnmatch, pkg) == Some(0)
  {
    hide Candidate, Specificity;
    assert p in [p];
  }

  lemma WinnerOf(rules: seq<CompiledRule>, fnmatch: Fnmatch, pkg: string)
    ensures var best := Best(PatternsOf(rules), fnmatch, pkg);
            Winner(rules, fnmatch, pkg) == if best.Some? then Some(PatternsOf(rules)[best.value]) else None
  {
  }

  lemma NoPatterns()
    ensures PatternsOf([]) == []
  {
  }

  /** The rules of "*aaaaaaaaaa" apply to no package, whatever the pattern matches. */
  lemma DeadRules(policy: Policy, fnmatch: Fnmatch, pkg: string)
    ensures var rules := [CompiledRule("*aaaaaaaaaa", "", true, policy)]; Scan(rules, fnmatch, pkg) == []
  {
    hide Specificity, Positions;
    TenLetters();
    var r := CompiledRule("*aaaaaaaaaa", "", true, policy);
    assert r.pkg[0] == '*';
    if !ContainsWildcard(pkg) {
      assert pkg != r.pkg;
      NoPositions([r], pkg);
    }
    PatternsMeaning([r]);
    assert Best(PatternsOf([r]), fnmatch, pkg).None?;
  }

  function Tagged(ps: seq<nat>, source: RuleSource): (ms: seq<RuleMatch>)
    ensures |ms| == |ps| && forall k :: 0 <= k < |ps| ==> ms[k] == RuleMatch(ps[k], source)
  {
    seq(|ps|, k requires 0 <= k < |ps| => RuleMatch(ps[k], source))
  }

  /** The exact-name rules in compile order, then those of the winning pattern in compile order. */
  function Scan(rules: seq<CompiledRule>, fnmatch: Fnmatch, pkg: string): (ms: seq<RuleMatch>)
    ensures InRange(ms, rules)
  {
    (if ContainsWildcard(pkg) then [] else Tagged(Positions(rules, pkg), PackageExact)) +
    (match Winner(rules, fnmatch, pkg)
     case None => []
     case Some(pattern) => Tagged(Positions(rules, pattern), PackageWildcard))
  }

  predicate Interested(rules: seq<CompiledRule>, fnmatch: Fnmatch, pkg: string) {
    Scan(rules, fnmatch, pkg) != []
  }

  predicate ThreadRules(rules: seq<CompiledRule>, fnmatch: Fnmatch, pkg: string) {
    exists i :: 0 <= i < |Scan(rules, fnmatch, pkg)| && rules[Scan(rules, fnmatch, pkg)[i].index].thread != ""
  }

  // ---------- resolving ----------

  /** Which rules a thread name hits. */
  function ThreadHit(fnmatch: Fnmatch, thread: string): CompiledRule -> bool {
    (r: CompiledRule) => r.thread != "" && r.patternOk && ThreadMatches(fnmatch, r.thread, thread)
  }

  predicate PackageLevel(r: CompiledRule) { r.thread == "" }

  function Keep(ms: seq<RuleMatch>, rules: seq<CompiledRule>, want: CompiledRule -> bool): (kept: seq<RuleMatch>)
    requires InRange(ms, rules)
    ensures InRange(kept, rules)
  {
    if ms == [] then []
    else
      var m := ms[|ms| - 1];
      Keep(ms[..|ms| - 1], rules, want) + if want(rules[m.index]) then [m] else []
  }

  predicate DoesSomething(p: Policy) { p.cpus != {} || p.sched.Some? || p.nice.Some? }

  /** Thread rules, where any hit, over package rules. */
  ghost function Layered(threadHits: seq<Hit>, pkgHits: seq<Hit>): Option<Policy> {
    var policy :=
      if threadHits == [] then Table(pkgHits)
      else if Table(threadHits).Some? && Table(pkgHits).Some? then
        Some(Filled(Table(threadHits).value, Table(pkgHits).value))
      else Table(threadHits);
    if policy.None? || !DoesSomething(policy.value) then None
    else Some(policy.value.(cpusetDir := RangeString(policy.value.cpus)))
  }

  /** The policy of a thread, read off the compiled rules without index or cache. */
  ghost function Resolved(rules: seq<CompiledRule>, fnmatch: Fnmatch, pkg: string, thread: string): Option<Policy> {
    var ms := Scan(rules, fnmatch, pkg);
    Layered(Hits(Keep(ms, rules, ThreadHit(fnmatch, thread)), rules), Hits(Keep(ms, rules, PackageLevel), rules))
  }

  /**
   What resolving means, field by field: each field comes from the thread hits if they set it and
   from the package rules otherwise, a scheduling policy together with its priority. There is no
   policy exactly when the deciding layer sets no field at all, or nothing but uclamp is set.
   */
  lemma LayeredMeaning(th: seq<Hit>, ph: seq<Hit>)
    ensures var cpus := if MergedCpus(th) != {} then MergedCpus(th) else MergedCpus(ph);
            var sched := if LeaderHit(th, SetsSched).Some? then LeaderHit(th, SetsSched) else LeaderHit(ph, SetsSched);
            var nice := if LeaderHit(th, SetsNice).Some? then LeaderHit(th, SetsNice) else LeaderHit(ph, SetsNice);
            Layered(th, ph) ==
              if SetsNothing(if th != [] then th else ph) || (cpus == {} && sched.None? && nice.None?) then None
              else Some(Policy(cpus, RangeString(cpus), SchedOf(sched), PrioOf(sched), NiceOf(nice),
                               Else(Floor(th), Floor(ph)), Else(Ceiling(th), Ceiling(ph))))
  {
    hide MergedCpus, Floor, Ceiling, Leader;
    Silent(th);
    Silent(ph);
    LeaderSets(th);
    LeaderSets(ph);
  }

  lemma LeaderSets(hits: seq<Hit>)
    ensures LeaderHit(hits, SetsSched).Some? <==> SchedOf(LeaderHit(hits, SetsSched)).Some?
    ensures LeaderHit(hits, SetsNice).Some? <==> NiceOf(LeaderHit(hits, SetsNice)).Some?
  {
  }

  lemma {:induction false} Silent(hits: seq<Hit>)
    ensures SetsNothing(hits) <==>
      MergedCpus(hits) == {} && LeaderHit(hits, SetsSched).None? && LeaderHit(hits, SetsNice).None?
      && Floor(hits).None? && Ceiling(hits).None?
  {
    hide Floor, Ceiling, Leader;
    NoMergedCpus(hits);
    LeaderPresent(hits, SetsSched);
    LeaderPresent(hits, SetsNice);
  }

  // ---------- the compiled rule set ----------

  class RuleSet {
    const ix: Index
    const fnmatch: Fnmatch
    var cache: map<string, seq<RuleMatch>>

    /** Cached answers are the answers of the plain scan. */
    ghost predicate Valid()
      reads this
    {
      && ix == IndexOf(ix.rules)
      && forall p :: p in cache ==> cache[p] == Scan(ix.rules, fnmatch, p)
    }

    constructor (ix: Index, fnmatch: Fnmatch)
      requires ix == IndexOf(ix.rules)
      ensures Valid() && this.ix == ix && this.fnmatch == fnmatch && cache == map[]
    {
      this.ix, this.fnmatch, this.cache := ix, fnmatch, map[];
    }

    /** Answered from the cache, or looked up and cached: the answer is that of the plain scan. */
    method CollectPkgMatches(pkg: string) returns (result: seq<RuleMatch>)
      requires Valid()
      modifies this`cache
      ensures Valid()
      ensures result == Scan(ix.rules, fnmatch, pkg)
      ensures cache == old(cache)[pkg := result]
    {
      hide Scan, IndexOf;
      if pkg in cache {
        assert cache == cache[pkg := cache[pkg]];
        return cache[pkg];
      }
      result := Lookup(ix, fnmatch, pkg);
      cache := cache[pkg := result];
    }

    method IsInterested(pkg: string) returns (r: bool)
      requires Valid()
      modifies this`cache
      ensures Valid()
      ensures r <==> Interested(ix.rules, fnmatch, pkg)
    {
      var ms := CollectPkgMatches(pkg);
      r := ms != [];
    }

    method HasThreadRules(pkg: string) returns (r: bool)
      requires Valid()
      modifies this`cache
      ensures Valid()
      ensures r <==> ThreadRules(ix.rules, fnmatch, pkg)
    {
      var ms := CollectPkgMatches(pkg);
      r := exists i :: 0 <= i < |ms| && ix.rules[ms[i].index].thread != "";
    }

    method Resolve(pkg: string, thread: string) returns (policy: Option<Policy>)
      requires Valid()
      modifies this`cache
      ensures Valid()
      ensures policy == Resolved(ix.rules, fnmatch, pkg, thread)
    {
      hide Scan, Table;
      var ms := CollectPkgMatches(pkg);
      if ms == [] {
        EmptyTable(ix.rules);
        return None;
      }
      var threadHits := Keep(ms, ix.rules, ThreadHit(fnmatch, thread));
      var pkgRules := Keep(ms, ix.rules, PackageLevel);
      var p;
      if threadHits != [] {
        p := MergeRules(threadHits, ix.rules);
        if p.None? {
          return None;
        }
        var fallback := MergeRules(pkgRules, ix.rules);
        if fallback.Some? {
          var filled := FillMissing(p.value, fallback.value);
          p := Some(filled);
        }
      } else {
        p := MergeRules(pkgRules, ix.rules);
        if p.None? {
          return None;
        }
      }
      if p.value.cpus == {} && p.value.sched.None? && p.value.nice.None? {
        return None;
      }
      return Some(p.value.(cpusetDir := RangeString(p.value.cpus)));
    }
  }

  lemma EmptyTable(rules: seq<CompiledRule>)
    ensures Hits([], rules) == [] && Table([]) == None
  {
  }

  /** The wildcard loop: a strictly better score replaces the best so far. */
  method BestGroup(wildcards: seq<WildcardRule>, fnmatch: Fnmatch, pkg: string, ghost rules: seq<CompiledRule>)
    returns (best: Option<nat>)
    requires wildcards == WildcardsOf(rules)
    ensures best == Best(PatternsOf(rules), fnmatch, pkg)
  {
    hide PatternsOf, Positions;
    ghost var ps := PatternsOf(rules);
    var bestSpec := 0;
    best := None;
    for k := 0 to |wildcards|
      invariant best == Best(ps[..k], fnmatch, pkg)
      invariant bestSpec == if best.Some? then Specificity(ps[best.value]) else 0
    {
      assert ps[..k + 1][..k] == ps[..k];
      assert wildcards[k] == GroupOf(rules, ps[k]);
      if wildcards[k].specificity > bestSpec && PackageMatches(fnmatch, wildcards[k].pattern, pkg) {
        bestSpec, best := wildcards[k].specificity, Some(k);
      }
    }
    assert ps[..|wildcards|] == ps;
  }

  /** Exact-name rules first, then the rules of the best group. */
  method Lookup(ix: Index, fnmatch: Fnmatch, pkg: string) returns (result: seq<RuleMatch>)
    requires ix == IndexOf(ix.rules)
    ensures result == Scan(ix.rules, fnmatch, pkg)
  {
    hide Scan, Best, ExactOf, WildcardsOf, PatternsOf, PkgsOf;
    result := [];
    if pkg in ix.exact {
      result := result + Tagged(ix.exact[pkg], PackageExact);
    }
    var best := BestGroup(ix.wildcards, fnmatch, pkg, ix.rules);
    if best.Some? {
      result := result + Tagged(ix.wildcards[best.value].ruleIdxs, PackageWildcard);
    }
    LookupIsScan(ix.rules, fnmatch, pkg);
  }

  /** Looking up the index is scanning the rules. */
  lemma {:induction false} LookupIsScan(rules: seq<CompiledRule>, fnmatch: Fnmatch, pkg: string)
    ensures var best := Best(PatternsOf(rules), fnmatch, pkg);
            Scan(rules, fnmatch, pkg) ==
              (if pkg in ExactOf(rules) then Tagged(ExactOf(rules)[pkg], PackageExact) else []) +
              (if best.Some? then Tagged(WildcardsOf(rules)[best.value].ruleIdxs, PackageWildcard) else [])
  {
    hide Positions, PatternsOf, Best;
    if pkg !in ExactNames(rules) && !ContainsWildcard(pkg) {
      NoPositions(rules, pkg);
    }
  }

  method Compile(configs: seq<RuleConfig>, present: CpuSet, fnmatch: Fnmatch)
    returns (rs: RuleSet, errors: seq<RuleError>)
    ensures fresh(rs) && rs.Valid() && rs.fnmatch == fnmatch && rs.cache == map[]
    ensures rs.ix == IndexOf(Compiled(configs, present))
    ensures errors == Errors(configs, present)
  {
    hide CompileRule;
    var rules: seq<CompiledRule> := [];
    errors := [];
    for i := 0 to |configs|
      invariant rules == Compiled(configs[..i], present)
      invariant errors == Errors(configs[..i], present)
    {
      assert configs[..i + 1] == configs[..i] + [configs[i]];
      assert configs[..i + 1][..i] == configs[..i];
      FlatMapSnoc(AcceptedRules(present), configs[..i], configs[i]);
      match CompileRule(configs[i], present) {
        case Rejected(reason) => errors := errors + [RuleError(i, reason)];
        case Accepted(r) => rules := rules + [r];
      }
    }
    assert configs[..|configs|] == configs;
    var ix := BuildIndex(rules);
    rs := new RuleSet(ix, fnmatch);
  }

  method BuildIndex(rules: seq<CompiledRule>) returns (ix: Index)
    ensures ix == IndexOf(rules)
  {
    hide ExactOf, WildcardsOf, PkgsOf;
    var exact: map<string, seq<nat>> := map[];
    var wildcards: seq<WildcardRule> := [];
    var pkgs: seq<string> := [];
    EmptyIndex();
    for i := 0 to |rules|
      invariant exact == ExactOf(rules[..i])
      invariant wildcards == WildcardsOf(rules[..i])
      invariant pkgs == PkgsOf(rules[..i])
    {
      var r := rules[i];
      assert rules[..i] + [r] == rules[..i + 1];
      ExactSnoc(rules[..i], r);
      PkgsSnoc(rules[..i], r);
      if ContainsWildcard(r.pkg) {
        wildcards := AddToGroup(wildcards, r, i, rules[..i]);
      } else {
        OnlyPatterns(rules[..i], r.pkg);
        WildcardsSnoc(rules[..i], r);
        exact := exact[r.pkg := (if r.pkg in exact then exact[r.pkg] else []) + [i]];
      }
      if r.pkg !in pkgs {
        pkgs := pkgs + [r.pkg];
      }
    }
    assert rules[..|rules|] == rules;
    ix := Index(rules, exact, wildcards, pkgs);
  }

  lemma EmptyIndex()
    ensures ExactOf([]) == map[] && WildcardsOf([]) == [] && PkgsOf([]) == []
  {
  }

  lemma PkgsSnoc(rules: seq<CompiledRule>, r: CompiledRule)
    ensures PkgsOf(rules + [r]) == if r.pkg in PkgsOf(rules) then PkgsOf(rules) else PkgsOf(rules) + [r.pkg]
  {
    assert (rules + [r])[..|rules|] == rules;
  }

  /** The search for the group of a pattern, and the push or the new group. */
  method AddToGroup(ws: seq<WildcardRule>, r: CompiledRule, i: nat, ghost rules: seq<CompiledRule>)
    returns (ws': seq<WildcardRule>)
    requires ws == WildcardsOf(rules) && i == |rules| && ContainsWildcard(r.pkg)
    ensures ws' == WildcardsOf(rules + [r])
  {
    hide PatternsOf, Positions;
    ghost var ps := PatternsOf(rules);
    var k := 0;
    while k < |ws|
      invariant k <= |ws|
      invariant r.pkg !in ps[..k]
    {
      assert ws[k] == GroupOf(rules, ps[k]);
      if ws[k].pattern == r.pkg {
        WildcardsGrow(rules, r, k);
        return ws[k := ws[k].(ruleIdxs := ws[k].ruleIdxs + [i])];
      }
      assert ps[..k + 1] == ps[..k] + [ps[k]];
      k := k + 1;
    }
    assert ps[..|ws|] == ps;
    WildcardsSnoc(rules, r);
    if HasNul(r.pkg) {
      return ws;
    }
    return ws + [WildcardRule(r.pkg, Specificity(r.pkg), [i])];
  }

  // ---------- reloading ----------

  lemma {:induction false} PkgsMeaning(rules: seq<CompiledRule>, pkg: string)
    ensures pkg in PkgsOf(rules) <==> exists i :: 0 <= i < |rules| && rules[i].pkg == pkg
  {
    if rules != [] {
      PkgsMeaning(rules[..|rules| - 1], pkg);
    }
  }

  /**
   The rules care about a package exactly when they name it, and it is no pattern itself, or some
   wildcard pattern wins for it.
   */
  lemma {:induction false} InterestMeaning(rules: seq<CompiledRule>, fnmatch: Fnmatch, pkg: string)
    ensures Interested(rules, fnmatch, pkg) <==>
      (pkg in PkgsOf(rules) && !ContainsWildcard(pkg)) || Winner(rules, fnmatch, pkg).Some?
  {
    hide Positions, PatternsOf, Best, Candidate, PkgsOf, ContainsWildcard;
    PkgsMeaning(rules, pkg);
    PositionsMeaning(rules, pkg);
    var best := Best(PatternsOf(rules), fnmatch, pkg);
    if best.Some? {
      var p := PatternsOf(rules)[best.value];
      PatternsMeaning(rules);
      assert p in PatternsOf(rules);
      PositionsMeaning(rules, p);
      var r :| r in rules && r.pkg == p;
      var i :| 0 <= i < |rules| && rules[i] == r;
      assert i in Positions(rules, p);
    }
    if pkg in PkgsOf(rules) {
      var i :| 0 <= i < |rules| && rules[i].pkg == pkg;
      assert i in Positions(rules, pkg);
    } else {
      NoPositions(rules, pkg);
    }
  }

  /**
   A reload keeps the processes whose package is listed literally, and is meant to keep those the
   rules care about. The two differ for a package that no rule names but some pattern wins for, and
   for one that is itself the text of a pattern for which no pattern wins.
   */
  lemma {:induction false} ReloadForgets(rules: seq<CompiledRule>, fnmatch: Fnmatch, pkg: string)
    ensures (pkg in PkgsOf(rules) <==> Interested(rules, fnmatch, pkg)) <==>
      if Winner(rules, fnmatch, pkg).Some? then pkg in PkgsOf(rules)
      else pkg in PkgsOf(rules) ==> !ContainsWildcard(pkg)
  {
    hide Interested, PkgsOf, ContainsWildcard, Winner;
    InterestMeaning(rules, fnmatch, pkg);
  }

  /** With the rules for "com.*" alone, a reload drops the process com.a, which the rules care about. */
  lemma ReloadForgetsExample(fnmatch: Fnmatch, policy: Policy)
    requires fnmatch("com.*", "com.a")
    ensures var rules := [CompiledRule("com.*", "", true, policy)];
            Interested(rules, fnmatch, "com.a") && "com.a" !in PkgsOf(rules)
  {
    hide Specificity, PatternsOf, Positions, PkgsOf, ContainsWildcard;
    var r := CompiledRule("com.*", "", true, policy);
    ComStar();
    PatternsMeaning([r]);
    assert r in [r] && "com.*" in PatternsOf([r]);
    PkgsMeaning([r], "com.a");
    assert ByteLen("com.a") < MAX_PKG_LEN by {
      ComA();
    }
    assert Candidate(fnmatch, "com.*", "com.a");
    InterestMeaning([r], fnmatch, "com.a");
  }

  lemma ComStar()
    ensures Specificity("com.*") == 394 && IsPattern("com.*")
  {
    var s := "com." + "*";
    assert s == "com.*" && s[4] == '*';
    hide Specificity;
    PrefixStar("com.");
  }

  lemma ComA()
    ensures ByteLen("com.a") == 5
  {
    Literals("com.a", 0, 5);
    Empty();
    assert "com.a"[..5] == "com.a" && "com.a"[..0] == "";
  }
}
