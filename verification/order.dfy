/**
 Resolving does not depend on the order in which the rules were listed, up to ties:
 the configuration is read from hash maps, whose iteration order is arbitrary.
 */
module RuleOrder {
  import opened Prelude
  import opened CpuText
  import opened Patterns
  import opened Rules
  import opened Merge
  import opened RuleSets

  // ---------- the matched rules as a bag ----------

  function Picker(pkg: string, source: RuleSource, want: CompiledRule -> bool): CompiledRule -> seq<Hit> {
    (r: CompiledRule) => if r.pkg == pkg && want(r) then [Hit(r.policy, source)] else []
  }

  lemma {:induction false} KeepPrefix(ms: seq<RuleMatch>, rules: seq<CompiledRule>, r: CompiledRule,
                                      want: CompiledRule -> bool)
    requires InRange(ms, rules)
    ensures InRange(ms, rules + [r])
    ensures Keep(ms, rules + [r], want) == Keep(ms, rules, want)
    ensures Hits(Keep(ms, rules + [r], want), rules + [r]) == Hits(Keep(ms, rules, want), rules)
  {
    if ms != [] {
      KeepPrefix(ms[..|ms| - 1], rules, r, want);
    }
  }

  /** The hits of one group are its rules' policies, picked from the rules in order. */
  lemma {:induction false} KeepGroup(rules: seq<CompiledRule>, pkg: string, source: RuleSource,
                                     want: CompiledRule -> bool)
    ensures InRange(Tagged(Positions(rules, pkg), source), rules)
    ensures Hits(Keep(Tagged(Positions(rules, pkg), source), rules, want), rules) ==
      FlatMap(Picker(pkg, source, want), rules)
  {
    if rules != [] {
      var n := |rules| - 1;
      var init, r := rules[..n], rules[n];
      assert rules == init + [r];
      KeepGroup(init, pkg, source, want);
      KeepPrefix(Tagged(Positions(init, pkg), source), init, r, want);
      if r.pkg == pkg {
        TaggedSnoc(Positions(init, pkg), n, source);
        KeepSnoc(Tagged(Positions(init, pkg), source), RuleMatch(n, source), rules, want);
      }
    }
  }

  lemma TaggedSnoc(ps: seq<nat>, n: nat, source: RuleSource)
    ensures Tagged(ps + [n], source) == Tagged(ps, source) + [RuleMatch(n, source)]
  {
  }

  lemma KeepSnoc(ms: seq<RuleMatch>, m: RuleMatch, rules: seq<CompiledRule>, want: CompiledRule -> bool)
    requires InRange(ms, rules) && m.index < |rules|
    ensures InRange(ms + [m], rules)
    ensures Keep(ms + [m], rules, want) ==
      if want(rules[m.index]) then Keep(ms, rules, want) + [m] else Keep(ms, rules, want)
    ensures Hits(Keep(ms + [m], rules, want), rules) ==
      Hits(Keep(ms, rules, want), rules) + if want(rules[m.index]) then [HitOf(m, rules)] else []
  {
    assert (ms + [m])[..|ms|] == ms;
  }

  lemma {:induction false} KeepConcat(a: seq<RuleMatch>, b: seq<RuleMatch>, rules: seq<CompiledRule>,
                                      want: CompiledRule -> bool)
    requires InRange(a, rules) && InRange(b, rules)
    ensures InRange(a + b, rules)
    ensures Keep(a + b, rules, want) == Keep(a, rules, want) + Keep(b, rules, want)
  {
    if b == [] {
      assert a + b == a;
    } else {
      var n := |b| - 1;
      KeepConcat(a, b[..n], rules, want);
      var whole := a + b;
      assert whole[..|whole| - 1] == a + b[..n];
      var last := if want(rules[b[n].index]) then [b[n]] else [];
      assert Keep(whole, rules, want) == Keep(a + b[..n], rules, want) + last;
      assert Keep(a, rules, want) + (Keep(b[..n], rules, want) + last) ==
        Keep(a, rules, want) + Keep(b[..n], rules, want) + last;
    }
  }

  function ExactPart(rules: seq<CompiledRule>, pkg: string, want: CompiledRule -> bool): seq<Hit> {
    if ContainsWildcard(pkg) then [] else FlatMap(Picker(pkg, PackageExact, want), rules)
  }

  function WildPart(rules: seq<CompiledRule>, winner: Option<string>, want: CompiledRule -> bool): seq<Hit> {
    if winner.None? then [] else FlatMap(Picker(winner.value, PackageWildcard, want), rules)
  }

  /** The hits among the rules of a package, read off the rules in order. */
  function PlainHits(rules: seq<CompiledRule>, fnmatch: Fnmatch, pkg: string, want: CompiledRule -> bool): seq<Hit> {
    ExactPart(rules, pkg, want) + WildPart(rules, Winner(rules, fnmatch, pkg), want)
  }

  lemma {:induction false} ScanHits(rules: seq<CompiledRule>, fnmatch: Fnmatch, pkg: string, want: CompiledRule -> bool)
    ensures Hits(Keep(Scan(rules, fnmatch, pkg), rules, want), rules) == PlainHits(rules, fnmatch, pkg, want)
  {
    hide Positions, PatternsOf, Winner, Keep, FlatMap;
    var exact := if ContainsWildcard(pkg) then [] else Tagged(Positions(rules, pkg), PackageExact);
    var w := Winner(rules, fnmatch, pkg);
    var wild := if w.None? then [] else Tagged(Positions(rules, w.value), PackageWildcard);
    KeepGroup(rules, pkg, PackageExact, want);
    if w.Some? {
      KeepGroup(rules, w.value, PackageWildcard, want);
    }
    KeepNothing(rules, want);
    KeepConcat(exact, wild, rules, want);
  }

  lemma KeepNothing(rules: seq<CompiledRule>, want: CompiledRule -> bool)
    ensures Keep([], rules, want) == []
  {
  }

  // ---------- order independence ----------

  /** A pattern of highest score among those that match the package. */
  ghost predicate Top(rules: seq<CompiledRule>, fnmatch: Fnmatch, pkg: string, p: string) {
    && p in PatternsOf(rules) && Candidate(fnmatch, p, pkg)
    && forall q :: q in PatternsOf(rules) && Candidate(fnmatch, q, pkg) ==> Specificity(q) <= Specificity(p)
  }

  /** The highest score among the matching patterns belongs to one pattern only. */
  ghost predicate NoTies(rules: seq<CompiledRule>, fnmatch: Fnmatch, pkg: string) {
    forall p, q :: Top(rules, fnmatch, pkg, p) && Top(rules, fnmatch, pkg, q) ==> p == q
  }

  lemma WinnerIsTop(rules: seq<CompiledRule>, fnmatch: Fnmatch, pkg: string)
    ensures var w := Winner(rules, fnmatch, pkg);
            if w.Some? then Top(rules, fnmatch, pkg, w.value) else forall p :: !Top(rules, fnmatch, pkg, p)
  {
    hide PatternsOf, Best, Candidate, Specificity;
  }

  lemma SameWinner(rules: seq<CompiledRule>, other: seq<CompiledRule>, fnmatch: Fnmatch, pkg: string)
    requires multiset(rules) == multiset(other)
    requires NoTies(rules, fnmatch, pkg)
    ensures Winner(rules, fnmatch, pkg) == Winner(other, fnmatch, pkg)
  {
    hide PatternsOf, Winner, Candidate, Specificity;
    SamePatterns(rules, other);
    WinnerIsTop(rules, fnmatch, pkg);
    WinnerIsTop(other, fnmatch, pkg);
    var w, v := Winner(rules, fnmatch, pkg), Winner(other, fnmatch, pkg);
    assert w.Some? ==> Top(other, fnmatch, pkg, w.value);
    assert v.Some? ==> Top(rules, fnmatch, pkg, v.value);
  }

  lemma {:induction false} FirstPattern(rules: seq<CompiledRule>)
    requires rules != [] && IsPattern(rules[0].pkg)
    ensures PatternsOf(rules) != [] && PatternsOf(rules)[0] == rules[0].pkg
  {
    if |rules| > 1 {
      FirstPattern(rules[..|rules| - 1]);
    }
  }

  function ToFront(rules: seq<CompiledRule>, i: nat): seq<CompiledRule>
    requires i < |rules|
  {
    [rules[i]] + (rules[..i] + rules[i + 1..])
  }

  lemma FrontBag(rules: seq<CompiledRule>, i: nat)
    requires i < |rules|
    ensures multiset(ToFront(rules, i)) == multiset(rules)
  {
    BagRemove(rules, i);
  }

  /** Listing a rule of a top pattern first makes the pattern win. */
  lemma TopFirst(rules: seq<CompiledRule>, other: seq<CompiledRule>, fnmatch: Fnmatch, pkg: string)
    requires multiset(rules) == multiset(other) && other != [] && Top(rules, fnmatch, pkg, other[0].pkg)
    ensures Winner(other, fnmatch, pkg) == Some(other[0].pkg)
  {
    hide Best, Candidate, Specificity, PatternsOf;
    PatternsMeaning(rules);
    FirstPattern(other);
    SamePatterns(rules, other);
    FirstTopIsBest(PatternsOf(other), fnmatch, pkg);
  }

  lemma FirstTopIsBest(patterns: seq<string>, fnmatch: Fnmatch, pkg: string)
    requires patterns != [] && Candidate(fnmatch, patterns[0], pkg)
    requires forall q :: q in patterns && Candidate(fnmatch, q, pkg) ==> Specificity(q) <= Specificity(patterns[0])
    ensures Best(patterns, fnmatch, pkg) == Some(0)
  {
    hide Candidate, Specificity;
    assert patterns[0] in patterns;
  }

  lemma TopCanWin(rules: seq<CompiledRule>, fnmatch: Fnmatch, pkg: string, p: string) returns (other: seq<CompiledRule>)
    requires Top(rules, fnmatch, pkg, p)
    ensures multiset(other) == multiset(rules) && Winner(other, fnmatch, pkg) == Some(p)
  {
    hide PatternsOf, Candidate, Winner;
    PatternsMeaning(rules);
    var i :| 0 <= i < |rules| && rules[i].pkg == p;
    other := ToFront(rules, i);
    FrontBag(rules, i);
    TopFirst(rules, other, fnmatch, pkg);
  }

  /** The winning pattern is the same in every order of the rules exactly when the top score is not shared. */
  lemma WinnerOrderFree(rules: seq<CompiledRule>, fnmatch: Fnmatch, pkg: string)
    ensures NoTies(rules, fnmatch, pkg) <==>
      forall other :: multiset(rules) == multiset(other) ==> Winner(other, fnmatch, pkg) == Winner(rules, fnmatch, pkg)
  {
    hide Winner, Top;
    if NoTies(rules, fnmatch, pkg) {
      forall other | multiset(rules) == multiset(other)
        ensures Winner(other, fnmatch, pkg) == Winner(rules, fnmatch, pkg)
      {
        SameWinner(rules, other, fnmatch, pkg);
      }
    } else {
      var p, q :| Top(rules, fnmatch, pkg, p) && Top(rules, fnmatch, pkg, q) && p != q;
      var a := TopCanWin(rules, fnmatch, pkg, p);
      var b := TopCanWin(rules, fnmatch, pkg, q);
    }
  }

  lemma {:induction false} SamePatterns(rules: seq<CompiledRule>, other: seq<CompiledRule>)
    requires multiset(rules) == multiset(other)
    ensures forall p :: p in PatternsOf(rules) <==> p in PatternsOf(other)
  {
    hide PatternsOf;
    SameElements(rules, other);
    PatternsMeaning(rules);
    PatternsMeaning(other);
  }

  lemma SameHits(rules: seq<CompiledRule>, other: seq<CompiledRule>, fnmatch: Fnmatch, pkg: string,
                 want: CompiledRule -> bool)
    requires multiset(rules) == multiset(other)
    requires NoTies(rules, fnmatch, pkg)
    ensures multiset(PlainHits(rules, fnmatch, pkg, want)) == multiset(PlainHits(other, fnmatch, pkg, want))
  {
    hide Winner, FlatMap, ContainsWildcard;
    SameWinner(rules, other, fnmatch, pkg);
    FlatMapPermutes(Picker(pkg, PackageExact, want), rules, other);
    var w := Winner(rules, fnmatch, pkg);
    if w.Some? {
      FlatMapPermutes(Picker(w.value, PackageWildcard, want), rules, other);
    }
  }

  /** A hit of highest priority among those that set a field. */
  ghost predicate Foremost(hits: seq<Hit>, has: Hit -> bool, h: Hit) {
    h in hits && has(h) && forall g :: g in hits && has(g) ==> Rank(g) <= Rank(h)
  }

  /** The foremost hits give the field one value. */
  ghost predicate Agree<T>(hits: seq<Hit>, has: Hit -> bool, field: Hit -> T) {
    forall g, h :: Foremost(hits, has, g) && Foremost(hits, has, h) ==> field(g) == field(h)
  }

  function FieldOf<T>(leader: Option<Hit>, field: Hit -> T): Option<T> {
    if leader.Some? then Some(field(leader.value)) else None
  }

  function SchedPair(h: Hit): (Option<SchedPolicy>, Option<int>) { (h.policy.sched, h.policy.schedPrio) }

  function NiceField(h: Hit): Option<int> { h.policy.nice }

  ghost predicate SchedAgrees(hits: seq<Hit>) { Agree(hits, SetsSched, SchedPair) }

  ghost predicate NiceAgrees(hits: seq<Hit>) { Agree(hits, SetsNice, NiceField) }

  lemma LeaderIsForemost(hits: seq<Hit>, has: Hit -> bool)
    ensures var r := LeaderHit(hits, has);
            if r.Some? then Foremost(hits, has, r.value) else forall h :: !Foremost(hits, has, h)
  {
  }

  lemma SameField<T>(hits: seq<Hit>, other: seq<Hit>, has: Hit -> bool, field: Hit -> T)
    requires multiset(hits) == multiset(other) && Agree(hits, has, field)
    ensures FieldOf(LeaderHit(hits, has), field) == FieldOf(LeaderHit(other, has), field)
  {
    hide LeaderHit;
    SameElements(hits, other);
    LeaderIsForemost(hits, has);
    LeaderIsForemost(other, has);
    var g, h := LeaderHit(hits, has), LeaderHit(other, has);
    assert g.Some? ==> Foremost(other, has, g.value);
    assert h.Some? ==> Foremost(hits, has, h.value);
  }

  lemma LeaderAt(hits: seq<Hit>, has: Hit -> bool, pos: nat)
    requires pos < |hits| && Foremost(hits, has, hits[pos]) && forall i :: 0 <= i < pos ==> !has(hits[i])
    ensures LeaderHit(hits, has) == Some(hits[pos])
  {
    var r := Leader(hits, has);
    assert has(hits[pos]);
    assert hits[r.value] in hits;
  }

  /** Listing a foremost hit first makes it the one that sets the field. */
  lemma ForemostCanLead(hits: seq<Hit>, has: Hit -> bool, h: Hit) returns (other: seq<Hit>)
    requires Foremost(hits, has, h)
    ensures multiset(other) == multiset(hits) && LeaderHit(other, has) == Some(h)
  {
    var i :| 0 <= i < |hits| && hits[i] == h;
    other := [h] + (hits[..i] + hits[i + 1..]);
    BagRemove(hits, i);
    SameElements(hits, other);
    assert Foremost(other, has, h);
    LeaderAt(other, has, 0);
  }

  /** A field is the same in every order of the hits exactly when the foremost hits agree on it. */
  lemma FieldOrderFree<T(!new)>(hits: seq<Hit>, has: Hit -> bool, field: Hit -> T)
    ensures Agree(hits, has, field) <==>
      forall other :: multiset(hits) == multiset(other) ==>
        FieldOf(LeaderHit(other, has), field) == FieldOf(LeaderHit(hits, has), field)
  {
    hide LeaderHit, Foremost;
    if Agree(hits, has, field) {
      forall other | multiset(hits) == multiset(other)
        ensures FieldOf(LeaderHit(other, has), field) == FieldOf(LeaderHit(hits, has), field)
      {
        SameField(hits, other, has, field);
      }
    } else {
      var g, h :| Foremost(hits, has, g) && Foremost(hits, has, h) && field(g) != field(h);
      var a := ForemostCanLead(hits, has, g);
      var b := ForemostCanLead(hits, has, h);
    }
  }

  /** Two policies agree, except perhaps on scheduling. */
  ghost predicate SamePlacement(a: Option<Policy>, b: Option<Policy>) {
    && a.Some? == b.Some?
    && (a.Some? ==>
         && a.value.cpus == b.value.cpus && a.value.cpusetDir == b.value.cpusetDir
         && a.value.uclampMin == b.value.uclampMin && a.value.uclampMax == b.value.uclampMax
         && a.value.sched.Some? == b.value.sched.Some? && a.value.nice.Some? == b.value.nice.Some?)
  }

  /** The layer that gives a field: the thread hits if one of them sets it, else the package rules. */
  function Layer(th: seq<Hit>, ph: seq<Hit>, has: Hit -> bool): seq<Hit> {
    if LeaderHit(th, has).Some? then th else ph
  }

  function SchedPart(p: Option<Policy>): Option<(Option<SchedPolicy>, Option<int>)> {
    if p.Some? then Some((p.value.sched, p.value.schedPrio)) else None
  }

  function NicePart(p: Option<Policy>): Option<Option<int>> { if p.Some? then Some(p.value.nice) else None }

  /** The scheduling fields of a resolved policy are those of the leader of their layer. */
  lemma LayerGives(th: seq<Hit>, ph: seq<Hit>)
    ensures var r, g := Layered(th, ph), LeaderHit(Layer(th, ph, SetsSched), SetsSched);
            var h := LeaderHit(Layer(th, ph, SetsNice), SetsNice);
            r.Some? ==>
              && SchedPart(r) == Some(if g.Some? then SchedPair(g.value) else (None, None))
              && NicePart(r) == Some(if h.Some? then NiceField(h.value) else None)
  {
    hide Layered, Leader, MergedCpus, Floor, Ceiling, SetsNothing;
    LayeredMeaning(th, ph);
  }

  lemma SameLayer<T>(th: seq<Hit>, ph: seq<Hit>, th': seq<Hit>, ph': seq<Hit>, has: Hit -> bool, field: Hit -> T)
    requires multiset(th) == multiset(th') && multiset(ph) == multiset(ph')
    requires Agree(Layer(th, ph, has), has, field)
    ensures FieldOf(LeaderHit(Layer(th, ph, has), has), field) == FieldOf(LeaderHit(Layer(th', ph', has), has), field)
  {
    hide Leader;
    SameElements(th, th');
    LeaderPresent(th, has);
    LeaderPresent(th', has);
    SameField(Layer(th, ph, has), Layer(th', ph', has), has, field);
  }

  lemma SameLayers(th: seq<Hit>, ph: seq<Hit>, th': seq<Hit>, ph': seq<Hit>)
    requires multiset(th) == multiset(th') && multiset(ph) == multiset(ph')
    ensures SamePlacement(Layered(th, ph), Layered(th', ph'))
    ensures SchedAgrees(Layer(th, ph, SetsSched)) ==> SchedPart(Layered(th, ph)) == SchedPart(Layered(th', ph'))
    ensures NiceAgrees(Layer(th, ph, SetsNice)) ==> NicePart(Layered(th, ph)) == NicePart(Layered(th', ph'))
  {
    hide Layered, Leader, MergedCpus, Floor, Ceiling, SetsNothing, Agree;
    SamePlaces(th, ph, th', ph');
    LayerGives(th, ph);
    LayerGives(th', ph');
    if SchedAgrees(Layer(th, ph, SetsSched)) {
      SameLayer(th, ph, th', ph', SetsSched, SchedPair);
    }
    if NiceAgrees(Layer(th, ph, SetsNice)) {
      SameLayer(th, ph, th', ph', SetsNice, NiceField);
    }
  }

  lemma SamePlaces(th: seq<Hit>, ph: seq<Hit>, th': seq<Hit>, ph': seq<Hit>)
    requires multiset(th) == multiset(th') && multiset(ph) == multiset(ph')
    ensures SamePlacement(Layered(th, ph), Layered(th', ph'))
  {
    hide Layered, Leader, MergedCpus, Floor, Ceiling, SetsNothing;
    assert th == [] <==> th' == [] by {
      assert |multiset(th)| == |th| && |multiset(th')| == |th'|;
    }
    LayeredMeaning(th, ph);
    LayeredMeaning(th', ph');
    BagFields(th, th');
    BagFields(ph, ph');
    LeaderSets(th);
    LeaderSets(ph);
    LeaderSets(th');
    LeaderSets(ph');
  }

  /** The thread hits and the package hits of a thread, read off the rules. */
  function ThreadHits(rules: seq<CompiledRule>, fnmatch: Fnmatch, pkg: string, thread: string): seq<Hit> {
    PlainHits(rules, fnmatch, pkg, ThreadHit(fnmatch, thread))
  }

  function PackageHits(rules: seq<CompiledRule>, fnmatch: Fnmatch, pkg: string): seq<Hit> {
    PlainHits(rules, fnmatch, pkg, PackageLevel)
  }

  /** The hits of the layer that gives a field. */
  function LayerOf(rules: seq<CompiledRule>, fnmatch: Fnmatch, pkg: string, thread: string, has: Hit -> bool)
    : seq<Hit>
  {
    Layer(ThreadHits(rules, fnmatch, pkg, thread), PackageHits(rules, fnmatch, pkg), has)
  }

  lemma ResolvedIsLayered(rules: seq<CompiledRule>, fnmatch: Fnmatch, pkg: string, thread: string)
    ensures Resolved(rules, fnmatch, pkg, thread) ==
      Layered(ThreadHits(rules, fnmatch, pkg, thread), PackageHits(rules, fnmatch, pkg))
  {
    hide Layered, PlainHits, Scan, Keep, ThreadHit;
    ScanHits(rules, fnmatch, pkg, ThreadHit(fnmatch, thread));
    ScanHits(rules, fnmatch, pkg, PackageLevel);
  }

  /**
   Two listings of the same rules resolve every (package, thread) to the same CPUs, directory and
   uclamp bounds, if no two matching patterns share the top score; and to the same scheduling policy
   and nice value if the foremost hits of the layer that gives the field agree on it.
   */
  lemma ResolveOrderFree(rules: seq<CompiledRule>, other: seq<CompiledRule>, fnmatch: Fnmatch, pkg: string,
                         thread: string)
    requires multiset(rules) == multiset(other)
    requires NoTies(rules, fnmatch, pkg)
    ensures var a, b := Resolved(rules, fnmatch, pkg, thread), Resolved(other, fnmatch, pkg, thread);
            var th, ph := ThreadHits(rules, fnmatch, pkg, thread), PackageHits(rules, fnmatch, pkg);
            && SamePlacement(a, b)
            && (SchedAgrees(Layer(th, ph, SetsSched)) ==> SchedPart(a) == SchedPart(b))
            && (NiceAgrees(Layer(th, ph, SetsNice)) ==> NicePart(a) == NicePart(b))
  {
    hide Layered, PlainHits, ThreadHit, NoTies, Layer;
    SameHits(rules, other, fnmatch, pkg, ThreadHit(fnmatch, thread));
    SameHits(rules, other, fnmatch, pkg, PackageLevel);
    ResolvedIsLayered(rules, fnmatch, pkg, thread);
    ResolvedIsLayered(other, fnmatch, pkg, thread);
    SameLayers(ThreadHits(rules, fnmatch, pkg, thread), PackageHits(rules, fnmatch, pkg),
               ThreadHits(other, fnmatch, pkg, thread), PackageHits(other, fnmatch, pkg));
  }

  // ---------- exactly when the order matters ----------

  lemma {:induction false} PickedFrom(f: CompiledRule -> seq<Hit>, rules: seq<CompiledRule>, h: Hit) returns (i: nat)
    requires h in FlatMap(f, rules)
    ensures i < |rules| && h in f(rules[i])
  {
    var n := |rules| - 1;
    if h in f(rules[n]) {
      i := n;
    } else {
      i := PickedFrom(f, rules[..n], h);
    }
  }

  lemma FrontPicks(f: CompiledRule -> seq<Hit>, rules: seq<CompiledRule>, i: nat)
    requires i < |rules|
    ensures FlatMap(f, ToFront(rules, i)) == f(rules[i]) + FlatMap(f, rules[..i] + rules[i + 1..])
  {
    hide FlatMap;
    FlatMapConcat(f, [rules[i]], rules[..i] + rules[i + 1..]);
    FlatMapOne(f, rules[i]);
  }

  /** Listing the rule of a foremost hit first makes the hit lead. */
  lemma ForemostRuleFirst(rules: seq<CompiledRule>, fnmatch: Fnmatch, pkg: string, want: CompiledRule -> bool,
                          has: Hit -> bool, g: Hit)
    returns (other: seq<CompiledRule>)
    ensures multiset(other) == multiset(rules)
    ensures NoTies(rules, fnmatch, pkg) && Foremost(PlainHits(rules, fnmatch, pkg, want), has, g) ==>
      LeaderHit(PlainHits(other, fnmatch, pkg, want), has) == Some(g)
  {
    hide Winner, NoTies, LeaderHit, ExactPart, WildPart;
    other := rules;
    if NoTies(rules, fnmatch, pkg) && Foremost(PlainHits(rules, fnmatch, pkg, want), has, g) {
      var w := Winner(rules, fnmatch, pkg);
      other := HitFirst(rules, pkg, w, want, g);
      SameWinner(rules, other, fnmatch, pkg);
      SameHits(rules, other, fnmatch, pkg, want);
      SameElements(PlainHits(rules, fnmatch, pkg, want), PlainHits(other, fnmatch, pkg, want));
      PartSources(other, pkg, w, want);
      FrontLeads(ExactPart(other, pkg, want), WildPart(other, w, want), has, g);
    }
  }

  /** Listing the rule of a hit first puts the hit at the front of its part. */
  lemma HitFirst(rules: seq<CompiledRule>, pkg: string, w: Option<string>, want: CompiledRule -> bool, g: Hit)
    returns (other: seq<CompiledRule>)
    requires g in ExactPart(rules, pkg, want) + WildPart(rules, w, want)
    ensures multiset(other) == multiset(rules)
    ensures var exact, wild := ExactPart(other, pkg, want), WildPart(other, w, want);
            (exact != [] && exact[0] == g) || (wild != [] && wild[0] == g && g.source == PackageWildcard)
  {
    hide FlatMap, ContainsWildcard;
    var f := if g in ExactPart(rules, pkg, want) then Picker(pkg, PackageExact, want)
      else Picker(w.value, PackageWildcard, want);
    var i := PickedFrom(f, rules, g);
    other := ToFront(rules, i);
    FrontPicks(f, rules, i);
    FrontBag(rules, i);
  }

  lemma PartSources(rules: seq<CompiledRule>, pkg: string, w: Option<string>, want: CompiledRule -> bool)
    ensures forall h :: h in ExactPart(rules, pkg, want) ==> h.source == PackageExact
    ensures forall h :: h in WildPart(rules, w, want) ==> h.source == PackageWildcard
  {
    PickedSource(pkg, PackageExact, want, rules);
    if w.Some? {
      PickedSource(w.value, PackageWildcard, want, rules);
    }
  }

  lemma FrontLeads(exact: seq<Hit>, wild: seq<Hit>, has: Hit -> bool, g: Hit)
    requires Foremost(exact + wild, has, g) && forall h :: h in exact ==> h.source == PackageExact
    requires (exact != [] && exact[0] == g) || (wild != [] && wild[0] == g && g.source == PackageWildcard)
    ensures LeaderHit(exact + wild, has) == Some(g)
  {
    var hits := exact + wild;
    if exact != [] && exact[0] == g {
      LeaderAt(hits, has, 0);
    } else {
      forall k | 0 <= k < |exact| ensures !has(hits[k]) {
        assert hits[k] in exact && hits[k] in hits;
      }
      LeaderAt(hits, has, |exact|);
    }
  }

  /** The same for the layer that gives a field of the resolved policy. */
  lemma LayerFirst(rules: seq<CompiledRule>, fnmatch: Fnmatch, pkg: string, thread: string, has: Hit -> bool, g: Hit)
    returns (other: seq<CompiledRule>)
    ensures multiset(other) == multiset(rules)
    ensures NoTies(rules, fnmatch, pkg) && Foremost(LayerOf(rules, fnmatch, pkg, thread, has), has, g) ==>
      LeaderHit(LayerOf(other, fnmatch, pkg, thread, has), has) == Some(g)
  {
    hide PlainHits, Foremost, NoTies, Leader, ThreadHit;
    var want := ThreadHit(fnmatch, thread);
    var th := PlainHits(rules, fnmatch, pkg, want);
    other := rules;
    if NoTies(rules, fnmatch, pkg) && Foremost(LayerOf(rules, fnmatch, pkg, thread, has), has, g) {
      other := ForemostRuleFirst(rules, fnmatch, pkg, if LeaderHit(th, has).Some? then want else PackageLevel, has, g);
      var th' := PlainHits(other, fnmatch, pkg, want);
      SameHits(rules, other, fnmatch, pkg, want);
      SameElements(th, th');
      LeaderPresent(th, has);
      LeaderPresent(th', has);
    }
  }

  /**
   Where no two patterns share the top score, the scheduling policy and priority are the same in every
   order of the rules exactly when the foremost hits of their layer agree on them, or nothing results.
   */
  lemma SchedOrderFree(rules: seq<CompiledRule>, fnmatch: Fnmatch, pkg: string, thread: string)
    requires NoTies(rules, fnmatch, pkg)
    ensures var r := Resolved(rules, fnmatch, pkg, thread);
            (forall other :: multiset(rules) == multiset(other) ==>
              SchedPart(Resolved(other, fnmatch, pkg, thread)) == SchedPart(r)) <==>
            r.None? ||
            SchedAgrees(LayerOf(rules, fnmatch, pkg, thread, SetsSched))
  {
    hide Layered, PlainHits, NoTies, Leader, Foremost, Layer, Resolved;
    var r := Resolved(rules, fnmatch, pkg, thread);
    var hits := LayerOf(rules, fnmatch, pkg, thread, SetsSched);
    if r.None? || SchedAgrees(hits) {
      forall other | multiset(rules) == multiset(other)
        ensures SchedPart(Resolved(other, fnmatch, pkg, thread)) == SchedPart(r)
      {
        ResolveOrderFree(rules, other, fnmatch, pkg, thread);
      }
    } else {
      var g, h :| Foremost(hits, SetsSched, g) && Foremost(hits, SetsSched, h) && SchedPair(g) != SchedPair(h);
      var a := LayerFirst(rules, fnmatch, pkg, thread, SetsSched, g);
      var b := LayerFirst(rules, fnmatch, pkg, thread, SetsSched, h);
      ResolveOrderFree(rules, a, fnmatch, pkg, thread);
      ResolveOrderFree(rules, b, fnmatch, pkg, thread);
      ResolvedGives(a, fnmatch, pkg, thread);
      ResolvedGives(b, fnmatch, pkg, thread);
    }
  }

  lemma NiceOrderFree(rules: seq<CompiledRule>, fnmatch: Fnmatch, pkg: string, thread: string)
    requires NoTies(rules, fnmatch, pkg)
    ensures var r := Resolved(rules, fnmatch, pkg, thread);
            (forall other :: multiset(rules) == multiset(other) ==>
              NicePart(Resolved(other, fnmatch, pkg, thread)) == NicePart(r)) <==>
            r.None? ||
            NiceAgrees(LayerOf(rules, fnmatch, pkg, thread, SetsNice))
  {
    hide Layered, PlainHits, NoTies, Leader, Foremost, Layer, Resolved;
    var r := Resolved(rules, fnmatch, pkg, thread);
    var hits := LayerOf(rules, fnmatch, pkg, thread, SetsNice);
    if r.None? || NiceAgrees(hits) {
      forall other | multiset(rules) == multiset(other)
        ensures NicePart(Resolved(other, fnmatch, pkg, thread)) == NicePart(r)
      {
        ResolveOrderFree(rules, other, fnmatch, pkg, thread);
      }
    } else {
      var g, h :| Foremost(hits, SetsNice, g) && Foremost(hits, SetsNice, h) && NiceField(g) != NiceField(h);
      var a := LayerFirst(rules, fnmatch, pkg, thread, SetsNice, g);
      var b := LayerFirst(rules, fnmatch, pkg, thread, SetsNice, h);
      ResolveOrderFree(rules, a, fnmatch, pkg, thread);
      ResolveOrderFree(rules, b, fnmatch, pkg, thread);
      ResolvedGives(a, fnmatch, pkg, thread);
      ResolvedGives(b, fnmatch, pkg, thread);
    }
  }

  lemma ResolvedGives(rules: seq<CompiledRule>, fnmatch: Fnmatch, pkg: string, thread: string)
    ensures var r := Resolved(rules, fnmatch, pkg, thread);
            var g := LeaderHit(LayerOf(rules, fnmatch, pkg, thread, SetsSched), SetsSched);
            var h := LeaderHit(LayerOf(rules, fnmatch, pkg, thread, SetsNice), SetsNice);
            r.Some? ==>
              && SchedPart(r) == Some(if g.Some? then SchedPair(g.value) else (None, None))
              && NicePart(r) == Some(if h.Some? then NiceField(h.value) else None)
  {
    hide Layered, PlainHits, Leader, Layer, Resolved;
    ResolvedIsLayered(rules, fnmatch, pkg, thread);
    LayerGives(ThreadHits(rules, fnmatch, pkg, thread), PackageHits(rules, fnmatch, pkg));
  }

  lemma {:induction false} PickedSource(pkg: string, source: RuleSource, want: CompiledRule -> bool,
                                        rules: seq<CompiledRule>)
    ensures forall h :: h in FlatMap(Picker(pkg, source, want), rules) ==> h.source == source
  {
    if rules != [] {
      PickedSource(pkg, source, want, rules[..|rules| - 1]);
    }
  }

  predicate Anything(r: CompiledRule) { true }

  /** Whether a package is of interest does not depend on the order either. */
  lemma InterestOrderFree(rules: seq<CompiledRule>, other: seq<CompiledRule>, fnmatch: Fnmatch, pkg: string)
    requires multiset(rules) == multiset(other)
    requires NoTies(rules, fnmatch, pkg)
    ensures Interested(rules, fnmatch, pkg) <==> Interested(other, fnmatch, pkg)
  {
    hide PlainHits, Scan, NoTies;
    SameHits(rules, other, fnmatch, pkg, Anything);
    ScanHits(rules, fnmatch, pkg, Anything);
    ScanHits(other, fnmatch, pkg, Anything);
    KeepAll(Scan(rules, fnmatch, pkg), rules);
    KeepAll(Scan(other, fnmatch, pkg), other);
    var a, b := PlainHits(rules, fnmatch, pkg, Anything), PlainHits(other, fnmatch, pkg, Anything);
    assert |multiset(a)| == |a| && |multiset(b)| == |b|;
  }

  lemma {:induction false} KeepAll(ms: seq<RuleMatch>, rules: seq<CompiledRule>)
    requires InRange(ms, rules)
    ensures Keep(ms, rules, Anything) == ms
  {
    if ms != [] {
      KeepAll(ms[..|ms| - 1], rules);
    }
  }

  /** Two orders of the configuration rules compile to two orders of the same compiled rules. */
  lemma CompileOrderFree(configs: seq<RuleConfig>, other: seq<RuleConfig>, present: CpuSet)
    requires multiset(configs) == multiset(other)
    ensures multiset(Compiled(configs, present)) == multiset(Compiled(other, present))
  {
    FlatMapPermutes(AcceptedRules(present), configs, other);
  }

  // ---------- the provisos are needed ----------

  function PinTo(cpu: nat): Policy
    requires cpu < CPU_SETSIZE
  {
    Policy({cpu}, RangeString({cpu}), None, None, None, None, None)
  }

  lemma OneHit(h: Hit)
    requires HasCpus(h)
    ensures Layered([], [h]).Some? && Layered([], [h]).value.cpus == h.policy.cpus
  {
    LayeredMeaning([], [h]);
    assert MergedCpus([h]) == h.policy.cpus by {
      assert h in [h] && Leads([h], h);
    }
    assert MergedCpus([]) == {};
  }

  lemma TieScores()
    ensures Specificity("a*") == Specificity("a?") == 91
    ensures IsPattern("a*") && IsPattern("a?") && ByteLen("ab") < MAX_PKG_LEN && !ContainsWildcard("ab")
  {
    assert "a*"[..1] == "a" && "a?"[..1] == "a" && "a"[..0] == "" && "ab"[..1] == "a";
    assert Specials("a*") == 1 && FixedPrefix("a*") == "a";
    assert Specials("a?") == 1 && FixedPrefix("a?") == "a";
  }

  /** With two patterns of equal score, "a*" and "a?", the first listed decides. */
  lemma TieDependsOnOrder(fnmatch: Fnmatch, x: string, y: string)
    requires fnmatch("a*", "ab") && fnmatch("a?", "ab")
    requires (x == "a*" && y == "a?") || (x == "a?" && y == "a*")
    ensures var rules := [CompiledRule(x, "", true, PinTo(0)), CompiledRule(y, "", true, PinTo(1))];
            Resolved(rules, fnmatch, "ab", "").Some? && Resolved(rules, fnmatch, "ab", "").value.cpus == {0}
  {
    hide PatternsOf, Best, Specificity, ByteLen, Resolved, RangeString, ContainsWildcard;
    var r, q := CompiledRule(x, "", true, PinTo(0)), CompiledRule(y, "", true, PinTo(1));
    TieScores();
    TiePatterns(r, q);
    TieWinner(fnmatch, x, y);
    TieFirst(fnmatch, r, q);
    PinCpus();
  }

  lemma PinCpus()
    ensures PinTo(0).cpus == {0}
  {
  }

  lemma TiePatterns(r: CompiledRule, q: CompiledRule)
    requires IsPattern(r.pkg) && IsPattern(q.pkg) && r.pkg != q.pkg
    ensures PatternsOf([r, q]) == [r.pkg, q.pkg]
  {
    PatternsSnoc([], r);
    PatternsSnoc([r], q);
    assert [] + [r] == [r] && [r] + [q] == [r, q];
  }

  lemma TieWinner(fnmatch: Fnmatch, x: string, y: string)
    requires fnmatch(x, "ab") && fnmatch(y, "ab") && ByteLen("ab") < MAX_PKG_LEN
    requires Specificity(x) == Specificity(y) == 91
    ensures Best([x, y], fnmatch, "ab") == Some(0)
  {
    hide Specificity, ByteLen;
    assert x in [x, y];
    var best := Best([x, y], fnmatch, "ab");
    assert best.Some?;
    assert Candidate(fnmatch, [x, y][0], "ab");
  }

  lemma TieFirst(fnmatch: Fnmatch, r: CompiledRule, q: CompiledRule)
    requires r.thread == "" && q.thread == "" && r.pkg != q.pkg && r.policy.cpus != {}
    requires PatternsOf([r, q]) == [r.pkg, q.pkg] && Best([r.pkg, q.pkg], fnmatch, "ab") == Some(0)
    requires r.pkg != "ab" && q.pkg != "ab" && !ContainsWildcard("ab")
    ensures Resolved([r, q], fnmatch, "ab", "").Some? && Resolved([r, q], fnmatch, "ab", "").value.cpus == r.policy.cpus
  {
    hide Scan, Layered, Keep, ContainsWildcard, FlatMap, PatternsOf, Best;
    var rules := [r, q];
    var want := ThreadHit(fnmatch, "");
    assert Winner(rules, fnmatch, "ab") == Some(r.pkg);
    ScanHits(rules, fnmatch, "ab", want);
    ScanHits(rules, fnmatch, "ab", PackageLevel);
    PickedByTwo(r, q, want);
    assert PlainHits(rules, fnmatch, "ab", want) == [];
    assert PlainHits(rules, fnmatch, "ab", PackageLevel) == [Hit(r.policy, PackageWildcard)];
    OneHit(Hit(r.policy, PackageWildcard));
  }

  lemma PickedByTwo(r: CompiledRule, q: CompiledRule, want: CompiledRule -> bool)
    requires r.thread == "" && q.thread == "" && !want(r) && !want(q)
    requires r.pkg != "ab" && q.pkg != "ab" && r.pkg != q.pkg
    ensures FlatMap(Picker("ab", PackageExact, want), [r, q]) == []
    ensures FlatMap(Picker("ab", PackageExact, PackageLevel), [r, q]) == []
    ensures FlatMap(Picker(r.pkg, PackageWildcard, want), [r, q]) == []
    ensures FlatMap(Picker(r.pkg, PackageWildcard, PackageLevel), [r, q]) == [Hit(r.policy, PackageWildcard)]
  {
    hide FlatMap;
    PickTwo(Picker("ab", PackageExact, want), r, q);
    PickTwo(Picker("ab", PackageExact, PackageLevel), r, q);
    PickTwo(Picker(r.pkg, PackageWildcard, want), r, q);
    PickTwo(Picker(r.pkg, PackageWildcard, PackageLevel), r, q);
    assert PackageLevel(r);
    var hit := [Hit(r.policy, PackageWildcard)];
    assert Picker(r.pkg, PackageWildcard, PackageLevel)(r) == hit && hit + [] == hit;
  }

  lemma PickTwo(f: CompiledRule -> seq<Hit>, r: CompiledRule, q: CompiledRule)
    ensures FlatMap(f, [r, q]) == f(r) + f(q)
  {
    assert [r, q][..1] == [r] && [r][..0] == [];
    assert FlatMap(f, [r]) == f(r);
  }
}
