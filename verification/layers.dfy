/**
 Which rules a thread comes under: the layers that resolving merges, told by the texts of the
 rules and by fnmatch alone.
 */
module Layers {
  import opened Prelude
  import opened Patterns
  import opened Rules
  import opened Merge
  import opened RuleSets
  import opened RuleOrder

  // ---------- the winning pattern ----------

  /** A package text that holds a wildcard, is not ranked at 0, and matches the package. */
  predicate MayWin(fnmatch: Fnmatch, pattern: string, pkg: string) {
    && ('*' in pattern || '?' in pattern || '[' in pattern) && '\0' !in pattern
    && Specificity(pattern) > 0 && ByteLen(pkg) < 128 && fnmatch(pattern, pkg)
  }

  /** The patterns are listed in the order in which they first occur. */
  lemma {:induction false} FirstOccurrence(rules: seq<CompiledRule>, k: nat) returns (i: nat)
    requires k < |PatternsOf(rules)|
    ensures i < |rules| && rules[i].pkg == PatternsOf(rules)[k]
    ensures forall j :: 0 <= j < i && IsPattern(rules[j].pkg) ==> rules[j].pkg in PatternsOf(rules)[..k]
  {
    var n := |rules| - 1;
    var init := rules[..n];
    if k < |PatternsOf(init)| {
      i := FirstOccurrence(init, k);
      assert PatternsOf(rules)[..k] == PatternsOf(init)[..k];
    } else {
      i := n;
      PatternsMeaning(init);
      assert PatternsOf(rules)[..k] == PatternsOf(init);
      forall j | 0 <= j < n && IsPattern(rules[j].pkg) ensures rules[j].pkg in PatternsOf(init) {
        assert init[j] in init;
      }
    }
  }

  lemma CandidateMeaning(rules: seq<CompiledRule>, fnmatch: Fnmatch, pkg: string, r: CompiledRule)
    requires r in rules
    ensures MayWin(fnmatch, r.pkg, pkg) <==> r.pkg in PatternsOf(rules) && Candidate(fnmatch, r.pkg, pkg)
  {
    hide PatternsOf, ByteLen, Specificity;
    PatternsMeaning(rules);
  }

  /** The i-th rule is for the pattern, no pattern that may win is ranked higher, and none before it as high. */
  predicate FirstTop(rules: seq<CompiledRule>, fnmatch: Fnmatch, pkg: string, p: string, i: nat) {
    && i < |rules| && rules[i].pkg == p && MayWin(fnmatch, p, pkg)
    && (forall r :: r in rules && MayWin(fnmatch, r.pkg, pkg) ==> Specificity(r.pkg) <= Specificity(p))
    && (forall j :: 0 <= j < i && MayWin(fnmatch, rules[j].pkg, pkg) ==> Specificity(rules[j].pkg) < Specificity(p))
  }

  /**
   A pattern wins for a package if some rule is for it, it may win, no rule's pattern that may win is
   ranked higher, and none ranked alike occurs before it. None wins exactly if none may.
   */
  lemma WinnerMeaning(rules: seq<CompiledRule>, fnmatch: Fnmatch, pkg: string)
    ensures var w := Winner(rules, fnmatch, pkg);
            && (w.None? <==> forall r :: r in rules ==> !MayWin(fnmatch, r.pkg, pkg))
            && (w.Some? ==> exists i :: FirstTop(rules, fnmatch, pkg, w.value, i))
  {
    hide PatternsOf, Candidate, MayWin, Specificity;
    PatternsMeaning(rules);
    forall r | r in rules { CandidateMeaning(rules, fnmatch, pkg, r); }
    var best := Best(PatternsOf(rules), fnmatch, pkg);
    if best.Some? {
      var ps, k := PatternsOf(rules), best.value;
      var i := FirstOccurrence(rules, k);
      assert rules[i] in rules && ps[k] in ps;
      forall j | 0 <= j < i && MayWin(fnmatch, rules[j].pkg, pkg)
        ensures Specificity(rules[j].pkg) < Specificity(ps[k]) {
        assert rules[j] in rules && IsPattern(rules[j].pkg);
        var m :| 0 <= m < k && ps[..k][m] == rules[j].pkg;
        assert ps[m] == rules[j].pkg;
      }
      assert FirstTop(rules, fnmatch, pkg, ps[k], i);
    }
  }

  // ---------- the layers ----------

  /** The rule applies to the package: by its exact name, or by the winning pattern. */
  predicate AppliesAs(rules: seq<CompiledRule>, fnmatch: Fnmatch, pkg: string, r: CompiledRule, source: RuleSource) {
    || (source == PackageExact && r.pkg == pkg && '*' !in pkg && '?' !in pkg && '[' !in pkg)
    || (source == PackageWildcard && Winner(rules, fnmatch, pkg) == Some(r.pkg))
  }

  /**
   The hits for a thread are exactly the rules that apply to the package and name a thread pattern that
   matches the thread's name; a name of 32 bytes or more matches nothing, and so does a text with a NUL.
   */
  lemma ThreadLayer(rules: seq<CompiledRule>, fnmatch: Fnmatch, pkg: string, thread: string, h: Hit)
    ensures h in ThreadHits(rules, fnmatch, pkg, thread) <==>
      exists r :: r in rules && AppliesAs(rules, fnmatch, pkg, r, h.source) && h.policy == r.policy
        && r.thread != "" && r.patternOk && ByteLen(thread) < 32 && fnmatch(r.thread, thread)
  {
    hide FlatMap, Winner, ByteLen;
    Members(rules, fnmatch, pkg, ThreadHit(fnmatch, thread), h);
  }

  /** The package hits are exactly the rules that apply to the package and name no thread. */
  lemma PackageLayer(rules: seq<CompiledRule>, fnmatch: Fnmatch, pkg: string, h: Hit)
    ensures h in PackageHits(rules, fnmatch, pkg) <==>
      exists r :: r in rules && AppliesAs(rules, fnmatch, pkg, r, h.source) && h.policy == r.policy && r.thread == ""
  {
    hide FlatMap, Winner;
    Members(rules, fnmatch, pkg, PackageLevel, h);
  }

  lemma Members(rules: seq<CompiledRule>, fnmatch: Fnmatch, pkg: string, want: CompiledRule -> bool, h: Hit)
    ensures h in PlainHits(rules, fnmatch, pkg, want) <==>
      exists r :: r in rules && AppliesAs(rules, fnmatch, pkg, r, h.source) && h.policy == r.policy && want(r)
  {
    hide FlatMap, Winner;
    var w := Winner(rules, fnmatch, pkg);
    FlatMapMember(Picker(pkg, PackageExact, want), rules, h);
    if w.Some? {
      FlatMapMember(Picker(w.value, PackageWildcard, want), rules, h);
    }
  }

  /**
   Resolving, with the two layers written out. Within a layer the rules of the exact name come before
   those of the pattern, and each group is in the order of the rules.
   */
  lemma {:induction false} ResolveMeaning(rules: seq<CompiledRule>, fnmatch: Fnmatch, pkg: string, thread: string)
    ensures Resolved(rules, fnmatch, pkg, thread) ==
      Layered(
        PlainHits(rules, fnmatch, pkg,
          (r: CompiledRule) => r.thread != "" && r.patternOk && ByteLen(thread) < 32 && fnmatch(r.thread, thread)),
        PlainHits(rules, fnmatch, pkg, (r: CompiledRule) => r.thread == ""))
  {
    hide PlainHits, Layered, ByteLen, Resolved;
    ResolvedIsLayered(rules, fnmatch, pkg, thread);
    SameWant(rules, fnmatch, pkg, ThreadHit(fnmatch, thread),
      (r: CompiledRule) => r.thread != "" && r.patternOk && ByteLen(thread) < 32 && fnmatch(r.thread, thread));
    SameWant(rules, fnmatch, pkg, PackageLevel, (r: CompiledRule) => r.thread == "");
  }

  lemma SameWant(rules: seq<CompiledRule>, fnmatch: Fnmatch, pkg: string, want: CompiledRule -> bool,
                 want': CompiledRule -> bool)
    requires forall r :: want(r) == want'(r)
    ensures PlainHits(rules, fnmatch, pkg, want) == PlainHits(rules, fnmatch, pkg, want')
  {
    hide FlatMap, Winner;
    var w := Winner(rules, fnmatch, pkg);
    FlatMapSame(Picker(pkg, PackageExact, want), Picker(pkg, PackageExact, want'), rules);
    if w.Some? {
      FlatMapSame(Picker(w.value, PackageWildcard, want), Picker(w.value, PackageWildcard, want'), rules);
    }
  }

  lemma NoHits(hits: seq<Hit>)
    ensures hits == [] <==> forall h :: h !in hits
  {
    if hits != [] {
      assert hits[0] in hits;
    }
  }

  /** If fnmatch rejects the name for every thread rule of the package, the package rules alone decide. */
  lemma RejectedThread(rules: seq<CompiledRule>, fnmatch: Fnmatch, pkg: string, thread: string)
    requires forall r :: r in rules && r.thread != "" && fnmatch(r.thread, thread) ==>
      r.pkg != pkg && Winner(rules, fnmatch, pkg) != Some(r.pkg)
    ensures Resolved(rules, fnmatch, pkg, thread) == Layered([], PackageHits(rules, fnmatch, pkg))
  {
    hide Layered, PlainHits, Resolved, Winner;
    forall h { ThreadLayer(rules, fnmatch, pkg, thread, h); }
    NoHits(ThreadHits(rules, fnmatch, pkg, thread));
    ResolvedIsLayered(rules, fnmatch, pkg, thread);
  }

  // ---------- packages without thread rules ----------

  lemma ScanMembers(rules: seq<CompiledRule>, fnmatch: Fnmatch, pkg: string, m: RuleMatch)
    requires m.index < |rules|
    ensures m in Scan(rules, fnmatch, pkg) <==> AppliesAs(rules, fnmatch, pkg, rules[m.index], m.source)
  {
    hide Positions, Winner;
    var w := Winner(rules, fnmatch, pkg);
    PositionsMeaning(rules, pkg);
    TaggedMember(Positions(rules, pkg), PackageExact, m);
    if w.Some? {
      PositionsMeaning(rules, w.value);
      TaggedMember(Positions(rules, w.value), PackageWildcard, m);
    }
  }

  lemma TaggedMember(ps: seq<nat>, source: RuleSource, m: RuleMatch)
    ensures m in Tagged(ps, source) <==> m.index in ps && m.source == source
  {
    if m.index in ps && m.source == source {
      var k :| 0 <= k < |ps| && ps[k] == m.index;
      assert Tagged(ps, source)[k] == m;
    }
  }

  /** A package has thread rules exactly if a rule that applies to it names a thread. */
  lemma ThreadRulesMeaning(rules: seq<CompiledRule>, fnmatch: Fnmatch, pkg: string)
    ensures ThreadRules(rules, fnmatch, pkg) <==>
      exists r, source :: r in rules && AppliesAs(rules, fnmatch, pkg, r, source) && r.thread != ""
  {
    hide Scan, AppliesAs;
    var ms := Scan(rules, fnmatch, pkg);
    if ThreadRules(rules, fnmatch, pkg) {
      var i :| 0 <= i < |ms| && rules[ms[i].index].thread != "";
      ScanMembers(rules, fnmatch, pkg, ms[i]);
      assert rules[ms[i].index] in rules;
    }
    if r, source :| r in rules && AppliesAs(rules, fnmatch, pkg, r, source) && r.thread != "" {
      var k :| 0 <= k < |rules| && rules[k] == r;
      ScanMembers(rules, fnmatch, pkg, RuleMatch(k, source));
      var i :| 0 <= i < |ms| && ms[i] == RuleMatch(k, source);
    }
  }

  /** Without thread rules the name of a thread does not matter, so it need not be read. */
  lemma NameDoesNotMatter(rules: seq<CompiledRule>, fnmatch: Fnmatch, pkg: string, thread: string, other: string)
    requires !ThreadRules(rules, fnmatch, pkg)
    ensures Resolved(rules, fnmatch, pkg, thread) == Resolved(rules, fnmatch, pkg, other)
  {
    hide ThreadRules, AppliesAs, Resolved, PlainHits;
    ThreadRulesMeaning(rules, fnmatch, pkg);
    forall h { ThreadLayer(rules, fnmatch, pkg, thread, h); }
    forall h { ThreadLayer(rules, fnmatch, pkg, other, h); }
    NoHits(ThreadHits(rules, fnmatch, pkg, thread));
    NoHits(ThreadHits(rules, fnmatch, pkg, other));
    ResolvedIsLayered(rules, fnmatch, pkg, thread);
    ResolvedIsLayered(rules, fnmatch, pkg, other);
  }
}
