/**
 From configuration to policy: which results depend on the order in which the hash maps
 of a configuration are visited. The conditions speak of the entries of one app alone.
 */
module ConfigOrder {
  import opened Prelude
  import opened CpuText
  import opened Patterns
  import opened Rules
  import opened Merge
  import opened RuleSets
  import opened RuleOrder
  import opened Config

  /** A configuration on a device. */
  datatype Setup = Setup(
    apps: map<string, AppModel>,
    profiles: Profiles,
    clusters: seq<CpuCluster>,
    present: CpuSet,
    fnmatch: Fnmatch)
  {
    /** The parser files every app under its own package. */
    ghost predicate WellKeyed() { forall k :: k in apps ==> apps[k].pkg == k }

    ghost predicate Ok(v: Visit) { VisitOk(apps, profiles, v) }

    /** The compiled rules when the maps are visited in a given order. */
    function RulesOf(v: Visit): seq<CompiledRule> { Compiled(Listing(apps, profiles, clusters, v), present) }

    ghost function PolicyOf(v: Visit, pkg: string, thread: string): Option<Policy> {
      Resolved(RulesOf(v), fnmatch, pkg, thread)
    }
  }

  lemma SameBag(s: Setup, v: Visit, v': Visit)
    requires s.Ok(v) && s.Ok(v')
    ensures multiset(s.RulesOf(v)) == multiset(s.RulesOf(v'))
  {
    hide Listing, VisitOk, Compiled;
    ListingBag(s.apps, s.profiles, s.clusters, v, v');
    CompileOrderFree(Listing(s.apps, s.profiles, s.clusters, v), Listing(s.apps, s.profiles, s.clusters, v'),
      s.present);
  }

  /** Any two visits place every thread alike, if no two matching patterns share the top score. */
  lemma ConfigOrderFree(s: Setup, v: Visit, v': Visit, pkg: string, thread: string)
    requires s.Ok(v) && s.Ok(v') && NoTies(s.RulesOf(v), s.fnmatch, pkg)
    ensures SamePlacement(s.PolicyOf(v, pkg, thread), s.PolicyOf(v', pkg, thread))
    ensures Interested(s.RulesOf(v), s.fnmatch, pkg) <==> Interested(s.RulesOf(v'), s.fnmatch, pkg)
  {
    SameBag(s, v, v');
    hide *;
    ResolveOrderFree(s.RulesOf(v), s.RulesOf(v'), s.fnmatch, pkg, thread);
    InterestOrderFree(s.RulesOf(v), s.RulesOf(v'), s.fnmatch, pkg);
  }

  // ---------- the rules of one app ----------

  lemma {:induction false} PatternRulesPkg(pkg: string, patterns: seq<string>, p: PolicyModel,
                                           clusters: seq<CpuCluster>)
    ensures forall rc :: rc in PatternRules(pkg, patterns, p, clusters) ==> rc.pkg == pkg && rc.thread in patterns
  {
    if patterns != [] {
      PatternRulesPkg(pkg, patterns[..|patterns| - 1], p, clusters);
    }
  }

  lemma AppPkg(app: AppModel, profiles: Profiles, clusters: seq<CpuCluster>, o: AppOrder)
    ensures forall rc :: rc in AppListing(app, profiles, clusters, o) ==> rc.pkg == app.pkg
  {
    hide FlatMap, TypePatterns, PatternRules, Effective;
    var e := Effective(app, profiles);
    var tf, yf := ThreadEntry(app.pkg, e.threads, clusters), TypeEntry(app.pkg, e.threadTypes, clusters);
    forall rc: RuleConfig | rc in FlatMap(tf, o.threads) ensures rc.pkg == app.pkg {
      FlatMapMember(tf, o.threads, rc);
    }
    forall rc: RuleConfig | rc in FlatMap(yf, o.types) ensures rc.pkg == app.pkg {
      FlatMapMember(yf, o.types, rc);
      var k :| k in o.types && rc in yf(k);
      PatternRulesPkg(app.pkg, TypePatterns(k).value, e.threadTypes[k], clusters);
    }
  }

  // ---------- the hits of one group ----------

  /** The hit that a configuration rule contributes to a group. */
  function RuleHits(g: string, source: RuleSource, want: CompiledRule -> bool,
                    present: CpuSet)
    : RuleConfig -> seq<Hit>
  {
    (rc: RuleConfig) => FlatMap(Picker(g, source, want), AcceptedRules(present)(rc))
  }

  lemma RuleHitsOf(g: string, source: RuleSource, want: CompiledRule -> bool, present: CpuSet, rc: RuleConfig)
    ensures RuleHits(g, source, want, present)(rc) == match CompileRule(rc, present)
      case Accepted(r) => if r.pkg == g && want(r) then [Hit(r.policy, source)] else []
      case Rejected(_) => []
    ensures rc.pkg != g ==> RuleHits(g, source, want, present)(rc) == []
  {
    hide CompileRule;
    var f, c := Picker(g, source, want), CompileRule(rc, present);
    if c.Accepted? {
      FlatMapOne(f, c.rule);
      CompileKeepsPkg(rc, present);
      assert AcceptedRules(present)(rc) == [c.rule];
      assert RuleHits(g, source, want, present)(rc) == f(c.rule);
    } else {
      assert AcceptedRules(present)(rc) == [];
      assert RuleHits(g, source, want, present)(rc) == [];
    }
  }

  lemma CompileKeepsPkg(rc: RuleConfig, present: CpuSet)
    ensures CompileRule(rc, present).Accepted? ==>
      CompileRule(rc, present).rule.pkg == rc.pkg && CompileRule(rc, present).rule.thread == rc.thread
  {
    hide Parse, ParseSched, RangeString;
  }

  /** The hits of a group come from the app of that name alone. */
  lemma GroupHits(s: Setup, v: Visit, g: string, source: RuleSource, want: CompiledRule -> bool)
    requires s.WellKeyed() && s.Ok(v)
    ensures var h := RuleHits(g, source, want, s.present);
            FlatMap(Picker(g, source, want), s.RulesOf(v)) ==
              if g in s.apps then FlatMap(h, AppListing(s.apps[g], s.profiles, s.clusters, v.inside[g])) else []
  {
    hide FlatMap, AppListing, AppOrderOk, AcceptedRules, RuleHits, Picker;
    var h, f := RuleHits(g, source, want, s.present), AppEntry(s.apps, s.profiles, s.clusters, v.inside);
    RuleHitsMeaning(g, source, want, s.present);
    FlatMapTwice(AcceptedRules(s.present), Picker(g, source, want), h, Listing(s.apps, s.profiles, s.clusters, v));
    var fh := (k: string) => FlatMap(h, f(k));
    FlatMapTwice(f, h, fh, v.apps);
    forall k | k in v.apps && k != g ensures fh(k) == [] {
      AppPkg(s.apps[k], s.profiles, s.clusters, v.inside[k]);
      forall rc | rc in f(k) ensures h(rc) == [] {
        RuleHitsOf(g, source, want, s.present, rc);
      }
      FlatMapEmpty(h, f(k));
    }
    FlatMapOnly(fh, v.apps, g);
  }

  lemma RuleHitsMeaning(g: string, source: RuleSource, want: CompiledRule -> bool, present: CpuSet)
    ensures forall rc ::
      RuleHits(g, source, want, present)(rc) == FlatMap(Picker(g, source, want), AcceptedRules(present)(rc))
  {
  }

  /** The hits of a thread entry and of a thread type. */
  function ThreadPart(h: RuleConfig -> seq<Hit>, pkg: string, e: ProfileModel,
                      clusters: seq<CpuCluster>)
    : string -> seq<Hit>
  {
    (k: string) => FlatMap(h, ThreadEntry(pkg, e.threads, clusters)(k))
  }

  function TypePart(h: RuleConfig -> seq<Hit>, pkg: string, e: ProfileModel,
                    clusters: seq<CpuCluster>)
    : string -> seq<Hit>
  {
    (k: string) => FlatMap(h, TypeEntry(pkg, e.threadTypes, clusters)(k))
  }

  lemma AppParts(h: RuleConfig -> seq<Hit>, app: AppModel, profiles: Profiles, clusters: seq<CpuCluster>, o: AppOrder)
    ensures var e := Effective(app, profiles);
            FlatMap(h, AppListing(app, profiles, clusters, o)) ==
              FlatMap(h, PolicyToRules(app.pkg, "", e.default, clusters))
              + FlatMap(ThreadPart(h, app.pkg, e, clusters), o.threads)
              + FlatMap(TypePart(h, app.pkg, e, clusters), o.types)
              + FlatMap(h, Placeholders(app, e))
  {
    hide FlatMap, ThreadEntry, TypeEntry, PolicyToRules, Placeholders, Effective;
    var e := Effective(app, profiles);
    var tf, yf := ThreadEntry(app.pkg, e.threads, clusters), TypeEntry(app.pkg, e.threadTypes, clusters);
    var d, t, y := PolicyToRules(app.pkg, "", e.default, clusters), FlatMap(tf, o.threads), FlatMap(yf, o.types);
    FlatMapConcat(h, d + t + y, Placeholders(app, e));
    FlatMapConcat(h, d + t, y);
    FlatMapConcat(h, d, t);
    FlatMapTwice(tf, h, ThreadPart(h, app.pkg, e, clusters), o.threads);
    FlatMapTwice(yf, h, TypePart(h, app.pkg, e, clusters), o.types);
  }

  /** Package rules have no thread, thread rules have one. */
  lemma NamelessHits(g: string, source: RuleSource, fnmatch: Fnmatch, thread: string, present: CpuSet, rc: RuleConfig)
    ensures rc.thread == "" ==> RuleHits(g, source, ThreadHit(fnmatch, thread), present)(rc) == []
    ensures rc.thread != "" ==> RuleHits(g, source, PackageLevel, present)(rc) == []
  {
    hide RuleHits, CompileRule;
    CompileKeepsPkg(rc, present);
    RuleHitsOf(g, source, ThreadHit(fnmatch, thread), present, rc);
    RuleHitsOf(g, source, PackageLevel, present, rc);
  }

  /** The thread hits of an app: those of its thread entries, then those of its thread types. */
  lemma AppThreadHits(g: string, source: RuleSource, fnmatch: Fnmatch, thread: string, present: CpuSet,
                      app: AppModel, profiles: Profiles, clusters: seq<CpuCluster>, o: AppOrder)
    ensures var h, e := RuleHits(g, source, ThreadHit(fnmatch, thread), present), Effective(app, profiles);
            FlatMap(h, AppListing(app, profiles, clusters, o)) ==
              FlatMap(ThreadPart(h, app.pkg, e, clusters), o.threads) +
                FlatMap(TypePart(h, app.pkg, e, clusters), o.types)
  {
    hide FlatMap, RuleHits, AppListing, ThreadPart, TypePart, ThreadHit, Effective, HasAnyPolicy;
    var h, e := RuleHits(g, source, ThreadHit(fnmatch, thread), present), Effective(app, profiles);
    AppParts(h, app, profiles, clusters, o);
    forall rc: RuleConfig | rc.thread == "" ensures h(rc) == [] {
      NamelessHits(g, source, fnmatch, thread, present, rc);
    }
    FlatMapEmpty(h, PolicyToRules(app.pkg, "", e.default, clusters));
    FlatMapEmpty(h, Placeholders(app, e));
  }

  /** The package hits of an app do not depend on the order at all. */
  lemma AppPackageHits(g: string, source: RuleSource, present: CpuSet, app: AppModel, profiles: Profiles,
                       clusters: seq<CpuCluster>, o: AppOrder, o': AppOrder)
    requires AppOrderOk(app, profiles, o) && AppOrderOk(app, profiles, o')
    ensures var h := RuleHits(g, source, PackageLevel, present);
            FlatMap(h, AppListing(app, profiles, clusters, o)) == FlatMap(h, AppListing(app, profiles, clusters, o'))
  {
    hide FlatMap, RuleHits, AppListing, Effective;
    var h, e := RuleHits(g, source, PackageLevel, present), Effective(app, profiles);
    AppParts(h, app, profiles, clusters, o);
    AppParts(h, app, profiles, clusters, o');
    var tp, yp := ThreadPart(h, app.pkg, e, clusters), TypePart(h, app.pkg, e, clusters);
    forall k | k != "" ensures tp(k) == [] {
      ThreadPartNamed(g, source, present, app.pkg, e, clusters, k);
    }
    FlatMapOnly(tp, o.threads, "");
    FlatMapOnly(tp, o'.threads, "");
    forall k ensures yp(k) == [] {
      TypePartNamed(g, source, present, app.pkg, e, clusters, k);
    }
    FlatMapEmpty(yp, o.types);
    FlatMapEmpty(yp, o'.types);
  }

  lemma ThreadPartNamed(g: string, source: RuleSource, present: CpuSet, pkg: string, e: ProfileModel,
                        clusters: seq<CpuCluster>, k: string)
    requires k != ""
    ensures ThreadPart(RuleHits(g, source, PackageLevel, present), pkg, e, clusters)(k) == []
  {
    hide FlatMap, RuleHits;
    var h, rcs := RuleHits(g, source, PackageLevel, present), ThreadEntry(pkg, e.threads, clusters)(k);
    forall rc | rc in rcs ensures h(rc) == [] {
      NamelessHits(g, source, (_, _) => true, "", present, rc);
    }
    FlatMapEmpty(h, rcs);
  }

  lemma TypePartNamed(g: string, source: RuleSource, present: CpuSet, pkg: string, e: ProfileModel,
                      clusters: seq<CpuCluster>, k: string)
    ensures TypePart(RuleHits(g, source, PackageLevel, present), pkg, e, clusters)(k) == []
  {
    hide FlatMap, RuleHits, PatternRules;
    var h, rcs := RuleHits(g, source, PackageLevel, present), TypeEntry(pkg, e.threadTypes, clusters)(k);
    if rcs != [] {
      PatternRulesPkg(pkg, TypePatterns(k).value, e.threadTypes[k], clusters);
    }
    forall rc | rc in rcs ensures h(rc) == [] {
      NamelessHits(g, source, (_, _) => true, "", present, rc);
    }
    FlatMapEmpty(h, rcs);
  }

  // ---------- who sets a field ----------

  lemma {:induction false} FirstConcat<T>(xs: seq<T>, ys: seq<T>, has: T -> bool)
    ensures First(xs + ys, has) == if First(xs, has).Some? then First(xs, has) else First(ys, has)
  {
    if ys == [] {
      assert xs + ys == xs;
    } else {
      var init, last := ys[..|ys| - 1], ys[|ys| - 1];
      FirstConcat(xs, init, has);
      assert xs + ys == xs + init + [last] && ys == init + [last];
      hide First;
      FirstSnoc(xs + init, last, has);
      FirstSnoc(init, last, has);
      assert First(xs + ys, has) == if First(xs, has).Some? then First(xs, has) else First(ys, has);
    }
  }

  /** Where the hits come in blocks, the first setter is the first setter of some block. */
  lemma {:induction false} FirstInBlocks(f: string -> seq<Hit>, order: seq<string>, has: Hit -> bool)
    ensures var r := First(FlatMap(f, order), has);
            && (r.None? <==> forall k :: k in order ==> First(f(k), has).None?)
            && (r.Some? ==> exists k :: k in order && First(f(k), has) == r)
  {
    if order != [] {
      var init, last := order[..|order| - 1], order[|order| - 1];
      assert order == init + [last];
      FirstInBlocks(f, init, has);
      FirstConcat(FlatMap(f, init), f(last), has);
    }
  }

  /** A setting block that is listed first sets the field. */
  lemma FirstBlockSets(f: string -> seq<Hit>, k: string, rest: seq<string>, has: Hit -> bool)
    requires First(f(k), has).Some?
    ensures First(FlatMap(f, [k] + rest), has) == First(f(k), has)
  {
    FlatMapConcat(f, [k], rest);
    FlatMapOne(f, k);
    FirstConcat(f(k), FlatMap(f, rest), has);
  }

  lemma {:induction false} FirstIsLeader(hits: seq<Hit>, has: Hit -> bool)
    requires Descending(hits, Rank)
    ensures First(hits, has) == LeaderHit(hits, has)
  {
    if hits != [] {
      FirstIsLeader(hits[..|hits| - 1], has);
    }
  }

  /** Some block of these keys sets the field. */
  ghost predicate SomeSets(f: string -> seq<Hit>, keys: set<string>, has: Hit -> bool) {
    exists k :: k in keys && First(f(k), has).Some?
  }

  /** The blocks of these keys that set a field give it one value. */
  ghost predicate BlocksAgree<T>(f: string -> seq<Hit>, keys: set<string>, has: Hit -> bool, field: Hit -> T) {
    forall j, k :: j in keys && k in keys && First(f(j), has).Some? && First(f(k), has).Some? ==>
      field(First(f(j), has).value) == field(First(f(k), has).value)
  }

  lemma {:induction false} BlocksSame<T>(f: string -> seq<Hit>, keys: set<string>, order: seq<string>,
                                         order': seq<string>,
                      has: Hit -> bool, field: Hit -> T)
    requires Lists(order, keys) && Lists(order', keys) && BlocksAgree(f, keys, has, field)
    ensures FieldOf(First(FlatMap(f, order), has), field) == FieldOf(First(FlatMap(f, order'), has), field)
  {
    hide FlatMap, First;
    FirstInBlocks(f, order, has);
    FirstInBlocks(f, order', has);
  }

  lemma SetsInAnyOrder(f: string -> seq<Hit>, keys: set<string>, order: seq<string>, has: Hit -> bool)
    requires Lists(order, keys)
    ensures First(FlatMap(f, order), has).Some? <==> SomeSets(f, keys, has)
  {
    hide FlatMap, First;
    FirstInBlocks(f, order, has);
  }

  lemma KeyFirst(order: seq<string>, keys: set<string>, k: string) returns (rest: seq<string>)
    requires Lists(order, keys) && k in keys
    ensures Lists([k] + rest, keys)
  {
    var i :| 0 <= i < |order| && order[i] == k;
    rest := order[..i] + order[i + 1..];
  }

  /** Blocks that disagree on a field can each be listed first. */
  lemma BlocksMove<T>(f: string -> seq<Hit>, keys: set<string>, order: seq<string>, has: Hit -> bool, field: Hit -> T)
    returns (a: seq<string>, b: seq<string>)
    requires Lists(order, keys) && !BlocksAgree(f, keys, has, field)
    ensures Lists(a, keys) && Lists(b, keys)
    ensures var x, y := First(FlatMap(f, a), has), First(FlatMap(f, b), has);
            x.Some? && y.Some? && field(x.value) != field(y.value)
  {
    hide FlatMap, First;
    var j, k :| j in keys && k in keys && First(f(j), has).Some? && First(f(k), has).Some?
      && field(First(f(j), has).value) != field(First(f(k), has).value);
    var ra := KeyFirst(order, keys, j);
    var rb := KeyFirst(order, keys, k);
    FirstBlockSets(f, j, ra, has);
    FirstBlockSets(f, k, rb, has);
    a, b := [j] + ra, [k] + rb;
  }

  // ---------- one group of a thread ----------

  function ThreadBlocks(s: Setup, g: string, source: RuleSource, thread: string): string -> seq<Hit>
    requires g in s.apps
  {
    ThreadPart(RuleHits(g, source, ThreadHit(s.fnmatch, thread), s.present), s.apps[g].pkg,
               Effective(s.apps[g], s.profiles), s.clusters)
  }

  function TypeBlocks(s: Setup, g: string, source: RuleSource, thread: string): string -> seq<Hit>
    requires g in s.apps
  {
    TypePart(RuleHits(g, source, ThreadHit(s.fnmatch, thread), s.present), s.apps[g].pkg,
             Effective(s.apps[g], s.profiles), s.clusters)
  }

  function ThreadKeys(s: Setup, g: string): set<string>
    requires g in s.apps
  {
    Effective(s.apps[g], s.profiles).threads.Keys
  }

  function TypeKeys(s: Setup, g: string): set<string>
    requires g in s.apps
  {
    Effective(s.apps[g], s.profiles).threadTypes.Keys
  }

  /** Some thread entry or thread type of the app hits the thread and sets the field. */
  ghost predicate GroupSets(s: Setup, g: string, source: RuleSource, thread: string, has: Hit -> bool) {
    && g in s.apps
    && (SomeSets(ThreadBlocks(s, g, source, thread), ThreadKeys(s, g), has)
        || SomeSets(TypeBlocks(s, g, source, thread), TypeKeys(s, g), has))
  }

  /** The hit thread entries that set the field agree on it; or there are none, and the hit thread types agree. */
  ghost predicate GroupAgrees<T(!new)>(s: Setup, g: string, source: RuleSource, thread: string, has: Hit -> bool,
                                       field: Hit -> T)
  {
    g in s.apps ==>
      if SomeSets(ThreadBlocks(s, g, source, thread), ThreadKeys(s, g), has)
      then BlocksAgree(ThreadBlocks(s, g, source, thread), ThreadKeys(s, g), has, field)
      else BlocksAgree(TypeBlocks(s, g, source, thread), TypeKeys(s, g), has, field)
  }

  ghost function GroupOf(s: Setup, v: Visit, g: string, source: RuleSource, thread: string): seq<Hit> {
    FlatMap(Picker(g, source, ThreadHit(s.fnmatch, thread)), s.RulesOf(v))
  }

  /** Thread entries come before thread types, so they set the field if any of them does. */
  lemma GroupFirst(s: Setup, v: Visit, g: string, source: RuleSource, thread: string, has: Hit -> bool)
    requires s.WellKeyed() && s.Ok(v)
    ensures First(GroupOf(s, v, g, source, thread), has) ==
      if g !in s.apps then None
      else if SomeSets(ThreadBlocks(s, g, source, thread), ThreadKeys(s, g), has)
      then First(FlatMap(ThreadBlocks(s, g, source, thread), v.inside[g].threads), has)
      else First(FlatMap(TypeBlocks(s, g, source, thread), v.inside[g].types), has)
    ensures First(GroupOf(s, v, g, source, thread), has).Some? <==> GroupSets(s, g, source, thread, has)
  {
    hide FlatMap, First, AppListing, Picker, ThreadPart, TypePart, SomeSets, Lists, Compiled, Listing;
    GroupHits(s, v, g, source, ThreadHit(s.fnmatch, thread));
    if g in s.apps {
      var o := v.inside[g];
      AppThreadHits(g, source, s.fnmatch, thread, s.present, s.apps[g], s.profiles, s.clusters, o);
      var t, y := FlatMap(ThreadBlocks(s, g, source, thread), o.threads),
        FlatMap(TypeBlocks(s, g, source, thread), o.types);
      FirstConcat(t, y, has);
      SetsInAnyOrder(ThreadBlocks(s, g, source, thread), ThreadKeys(s, g), o.threads, has);
      SetsInAnyOrder(TypeBlocks(s, g, source, thread), TypeKeys(s, g), o.types, has);
    } else {
      FirstOfNone(has);
    }
  }

  lemma FirstOfNone(has: Hit -> bool)
    ensures First([], has) == None
  {
  }

  lemma GroupSame<T(!new)>(s: Setup, v: Visit, v': Visit, g: string, source: RuleSource, thread: string,
                           has: Hit -> bool, field: Hit -> T)
    requires s.WellKeyed() && s.Ok(v) && s.Ok(v') && GroupAgrees(s, g, source, thread, has, field)
    ensures FieldOf(First(GroupOf(s, v, g, source, thread), has), field) ==
      FieldOf(First(GroupOf(s, v', g, source, thread), has), field)
  {
    hide FlatMap, First, GroupOf, SomeSets, Lists, BlocksAgree, ThreadBlocks, TypeBlocks, GroupSets;
    GroupFirst(s, v, g, source, thread, has);
    GroupFirst(s, v', g, source, thread, has);
    if g in s.apps {
      var o, o' := v.inside[g], v'.inside[g];
      if SomeSets(ThreadBlocks(s, g, source, thread), ThreadKeys(s, g), has) {
        BlocksSame(ThreadBlocks(s, g, source, thread), ThreadKeys(s, g), o.threads, o'.threads, has, field);
      } else {
        BlocksSame(TypeBlocks(s, g, source, thread), TypeKeys(s, g), o.types, o'.types, has, field);
      }
    }
  }

  lemma GroupMoves<T(!new)>(s: Setup, v: Visit, g: string, source: RuleSource, thread: string, has: Hit -> bool,
                            field: Hit -> T)
    returns (a: Visit, b: Visit)
    requires s.WellKeyed() && s.Ok(v) && !GroupAgrees(s, g, source, thread, has, field)
    ensures s.Ok(a) && s.Ok(b) && GroupSets(s, g, source, thread, has)
    ensures var x, y := First(GroupOf(s, a, g, source, thread), has), First(GroupOf(s, b, g, source, thread), has);
            x.Some? && y.Some? && field(x.value) != field(y.value)
  {
    hide FlatMap, First, GroupOf, SomeSets, Lists, BlocksAgree, ThreadBlocks, TypeBlocks, GroupSets;
    var o := v.inside[g];
    var oa, ob := o, o;
    if SomeSets(ThreadBlocks(s, g, source, thread), ThreadKeys(s, g), has) {
      var p, q := BlocksMove(ThreadBlocks(s, g, source, thread), ThreadKeys(s, g), o.threads, has, field);
      oa, ob := o.(threads := p), o.(threads := q);
    } else {
      var p, q := BlocksMove(TypeBlocks(s, g, source, thread), TypeKeys(s, g), o.types, has, field);
      oa, ob := o.(types := p), o.(types := q);
    }
    a, b := v.(inside := v.inside[g := oa]), v.(inside := v.inside[g := ob]);
    GroupFirst(s, a, g, source, thread, has);
    GroupFirst(s, b, g, source, thread, has);
  }

  // ---------- both groups of a thread ----------

  /** The exact-name app decides if it sets the field, and the app of the winning pattern otherwise. */
  ghost predicate EntriesAgree<T(!new)>(s: Setup, winner: Option<string>, pkg: string, thread: string,
                                        has: Hit -> bool, field: Hit -> T)
  {
    if !ContainsWildcard(pkg) && GroupSets(s, pkg, PackageExact, thread, has)
    then GroupAgrees(s, pkg, PackageExact, thread, has, field)
    else winner.Some? ==> GroupAgrees(s, winner.value, PackageWildcard, thread, has, field)
  }

  ghost function HitsOf(s: Setup, v: Visit, pkg: string, thread: string): seq<Hit> {
    ThreadHits(s.RulesOf(v), s.fnmatch, pkg, thread)
  }

  lemma TwoGroups(exact: seq<Hit>, wild: seq<Hit>, has: Hit -> bool)
    requires forall h :: h in exact ==> h.source == PackageExact
    requires forall h :: h in wild ==> h.source == PackageWildcard
    ensures LeaderHit(exact + wild, has) == if First(exact, has).Some? then First(exact, has) else First(wild, has)
  {
    assert Descending(exact + wild, Rank) by {
      forall i, j | 0 <= i < j < |exact + wild| ensures Rank((exact + wild)[i]) >= Rank((exact + wild)[j]) {
        assert i < |exact| ==> exact[i] in exact;
        assert i >= |exact| ==> wild[i - |exact|] in wild && wild[j - |exact|] in wild;
        assert j < |exact| ==> exact[j] in exact;
        assert j >= |exact| ==> wild[j - |exact|] in wild;
      }
    }
    FirstIsLeader(exact + wild, has);
    FirstConcat(exact, wild, has);
  }

  /** Who sets a field among the thread hits. */
  lemma WhoLeads(s: Setup, v: Visit, pkg: string, thread: string, has: Hit -> bool)
    requires s.WellKeyed() && s.Ok(v)
    ensures var w := Winner(s.RulesOf(v), s.fnmatch, pkg);
            LeaderHit(HitsOf(s, v, pkg, thread), has) ==
              if !ContainsWildcard(pkg) && GroupSets(s, pkg, PackageExact, thread, has)
              then First(GroupOf(s, v, pkg, PackageExact, thread), has)
              else if w.Some? then First(GroupOf(s, v, w.value, PackageWildcard, thread), has) else None
  {
    hide FlatMap, First, LeaderHit, GroupSets, Winner, ContainsWildcard, Picker, ThreadHit;
    var rules, want := s.RulesOf(v), ThreadHit(s.fnmatch, thread);
    var w := Winner(rules, s.fnmatch, pkg);
    var exact := if ContainsWildcard(pkg) then [] else GroupOf(s, v, pkg, PackageExact, thread);
    var wild := if w.None? then [] else GroupOf(s, v, w.value, PackageWildcard, thread);
    GroupFirst(s, v, pkg, PackageExact, thread, has);
    PickedSource(pkg, PackageExact, want, rules);
    if w.Some? {
      PickedSource(w.value, PackageWildcard, want, rules);
    }
    FirstOfNone(has);
    TwoGroups(exact, wild, has);
    assert HitsOf(s, v, pkg, thread) == exact + wild;
  }

  lemma LeaderSame<T(!new)>(s: Setup, v: Visit, v': Visit, pkg: string, thread: string, has: Hit -> bool,
                            field: Hit -> T)
    requires s.WellKeyed() && s.Ok(v) && s.Ok(v') && NoTies(s.RulesOf(v), s.fnmatch, pkg)
    requires EntriesAgree(s, Winner(s.RulesOf(v), s.fnmatch, pkg), pkg, thread, has, field)
    ensures FieldOf(LeaderHit(HitsOf(s, v, pkg, thread), has), field) ==
      FieldOf(LeaderHit(HitsOf(s, v', pkg, thread), has), field)
  {
    SameBag(s, v, v');
    SameWinner(s.RulesOf(v), s.RulesOf(v'), s.fnmatch, pkg);
    hide First, LeaderHit, GroupSets, Winner, ContainsWildcard, GroupOf, GroupAgrees, HitsOf, NoTies;
    var w := Winner(s.RulesOf(v), s.fnmatch, pkg);
    WhoLeads(s, v, pkg, thread, has);
    WhoLeads(s, v', pkg, thread, has);
    if !ContainsWildcard(pkg) && GroupSets(s, pkg, PackageExact, thread, has) {
      GroupSame(s, v, v', pkg, PackageExact, thread, has, field);
    } else if w.Some? {
      GroupSame(s, v, v', w.value, PackageWildcard, thread, has, field);
    }
  }

  lemma LeaderMoves<T(!new)>(s: Setup, v: Visit, pkg: string, thread: string, has: Hit -> bool, field: Hit -> T)
    returns (a: Visit, b: Visit)
    requires s.WellKeyed() && s.Ok(v) && NoTies(s.RulesOf(v), s.fnmatch, pkg)
    ensures s.Ok(a) && s.Ok(b)
    ensures var x, y := LeaderHit(HitsOf(s, a, pkg, thread), has), LeaderHit(HitsOf(s, b, pkg, thread), has);
            EntriesAgree(s, Winner(s.RulesOf(v), s.fnmatch, pkg), pkg, thread, has, field)
            || (x.Some? && y.Some? && field(x.value) != field(y.value))
  {
    hide First, LeaderHit, GroupSets, Winner, ContainsWildcard, GroupOf, GroupAgrees, HitsOf, NoTies;
    var w := Winner(s.RulesOf(v), s.fnmatch, pkg);
    a, b := v, v;
    if EntriesAgree(s, w, pkg, thread, has, field) {
      return;
    }
    if !ContainsWildcard(pkg) && GroupSets(s, pkg, PackageExact, thread, has) {
      a, b := GroupMoves(s, v, pkg, PackageExact, thread, has, field);
    } else {
      a, b := GroupMoves(s, v, w.value, PackageWildcard, thread, has, field);
    }
    SameBag(s, v, a);
    SameBag(s, v, b);
    SameWinner(s.RulesOf(v), s.RulesOf(a), s.fnmatch, pkg);
    SameWinner(s.RulesOf(v), s.RulesOf(b), s.fnmatch, pkg);
    WhoLeads(s, a, pkg, thread, has);
    WhoLeads(s, b, pkg, thread, has);
  }

  // ---------- exactly when the visiting order matters ----------

  /** The package hits are the same in every visiting order, and in the same order. */
  lemma PackageHitsSame(s: Setup, v: Visit, v': Visit, pkg: string)
    requires s.WellKeyed() && s.Ok(v) && s.Ok(v') && NoTies(s.RulesOf(v), s.fnmatch, pkg)
    ensures PackageHits(s.RulesOf(v), s.fnmatch, pkg) == PackageHits(s.RulesOf(v'), s.fnmatch, pkg)
  {
    SameBag(s, v, v');
    SameWinner(s.RulesOf(v), s.RulesOf(v'), s.fnmatch, pkg);
    PackageGroupSame(s, v, v', pkg, PackageExact);
    var w := Winner(s.RulesOf(v), s.fnmatch, pkg);
    if w.Some? {
      PackageGroupSame(s, v, v', w.value, PackageWildcard);
    }
    hide *;
    SamePlain(s.RulesOf(v), s.RulesOf(v'), s.fnmatch, pkg, PackageLevel);
  }

  lemma SamePlain(rules: seq<CompiledRule>, other: seq<CompiledRule>, fnmatch: Fnmatch, pkg: string,
                  want: CompiledRule -> bool)
    requires Winner(rules, fnmatch, pkg) == Winner(other, fnmatch, pkg)
    requires FlatMap(Picker(pkg, PackageExact, want), rules) == FlatMap(Picker(pkg, PackageExact, want), other)
    requires var w := Winner(rules, fnmatch, pkg);
             w.Some? ==>
               FlatMap(Picker(w.value, PackageWildcard, want), rules) ==
               FlatMap(Picker(w.value, PackageWildcard, want), other)
    ensures PlainHits(rules, fnmatch, pkg, want) == PlainHits(other, fnmatch, pkg, want)
  {
    hide FlatMap, Winner, ContainsWildcard, Picker;
  }

  lemma PackageGroupSame(s: Setup, v: Visit, v': Visit, g: string, source: RuleSource)
    requires s.WellKeyed() && s.Ok(v) && s.Ok(v')
    ensures FlatMap(Picker(g, source, PackageLevel), s.RulesOf(v)) ==
      FlatMap(Picker(g, source, PackageLevel), s.RulesOf(v'))
  {
    hide FlatMap, Picker, AppListing, AppOrderOk, RuleHits, Compiled, Listing;
    GroupHits(s, v, g, source, PackageLevel);
    GroupHits(s, v', g, source, PackageLevel);
    if g in s.apps {
      AppPackageHits(g, source, s.present, s.apps[g], s.profiles, s.clusters, v.inside[g], v'.inside[g]);
    }
  }

  /** A field that a thread hit sets is in the policy. */
  lemma ThreadHitsGive(rules: seq<CompiledRule>, fnmatch: Fnmatch, pkg: string, thread: string)
    ensures var th, r := ThreadHits(rules, fnmatch, pkg, thread), Resolved(rules, fnmatch, pkg, thread);
            var g, h := LeaderHit(th, SetsSched), LeaderHit(th, SetsNice);
            && (g.Some? ==> SchedPart(r) == Some(SchedPair(g.value)))
            && (h.Some? ==> NicePart(r) == Some(NiceField(h.value)))
  {
    hide Layered, Resolved, PlainHits, Leader, MergedCpus, Floor, Ceiling;
    var th, ph := ThreadHits(rules, fnmatch, pkg, thread), PackageHits(rules, fnmatch, pkg);
    ResolvedIsLayered(rules, fnmatch, pkg, thread);
    LayeredMeaning(th, ph);
    LayerGives(th, ph);
    Silent(th);
    LeaderSets(th);
  }

  /** A field that no thread hit sets comes from the package hits, if there is a policy. */
  lemma PackageHitsGive(rules: seq<CompiledRule>, fnmatch: Fnmatch, pkg: string, thread: string)
    ensures var th, ph := ThreadHits(rules, fnmatch, pkg, thread), PackageHits(rules, fnmatch, pkg);
            var r := Resolved(rules, fnmatch, pkg, thread);
            var g, h := LeaderHit(ph, SetsSched), LeaderHit(ph, SetsNice);
            r.Some? ==>
              && (LeaderHit(th, SetsSched).None? ==>
                SchedPart(r) == Some(if g.Some? then SchedPair(g.value) else (None, None)))
              && (LeaderHit(th, SetsNice).None? ==> NicePart(r) == Some(if h.Some? then NiceField(h.value) else None))
  {
    hide Layered, Resolved, PlainHits, Leader;
    ResolvedIsLayered(rules, fnmatch, pkg, thread);
    LayerGives(ThreadHits(rules, fnmatch, pkg, thread), PackageHits(rules, fnmatch, pkg));
  }

  /**
   Where no two patterns share the top score, the scheduling policy and priority are the same in every
   visiting order exactly when the deciding app's hit thread entries that set one agree, or none of
   them sets one and its hit thread types agree.
   */
  lemma SchedOverVisits(s: Setup, v: Visit, pkg: string, thread: string)
    requires s.WellKeyed() && s.Ok(v) && NoTies(s.RulesOf(v), s.fnmatch, pkg)
    ensures (forall v' :: s.Ok(v') ==>
      SchedPart(s.PolicyOf(v', pkg, thread)) == SchedPart(s.PolicyOf(v, pkg, thread))) <==>
      EntriesAgree(s, Winner(s.RulesOf(v), s.fnmatch, pkg), pkg, thread, SetsSched, SchedPair)
  {
    hide Resolved, PlainHits, LeaderHit, NoTies, EntriesAgree, Winner, Interested;
    if EntriesAgree(s, Winner(s.RulesOf(v), s.fnmatch, pkg), pkg, thread, SetsSched, SchedPair) {
      forall v' | s.Ok(v') ensures SchedPart(s.PolicyOf(v', pkg, thread)) == SchedPart(s.PolicyOf(v, pkg, thread)) {
        ConfigOrderFree(s, v, v', pkg, thread);
        LeaderSame(s, v, v', pkg, thread, SetsSched, SchedPair);
        PackageHitsSame(s, v, v', pkg);
        ThreadHitsGive(s.RulesOf(v), s.fnmatch, pkg, thread);
        ThreadHitsGive(s.RulesOf(v'), s.fnmatch, pkg, thread);
        PackageHitsGive(s.RulesOf(v), s.fnmatch, pkg, thread);
        PackageHitsGive(s.RulesOf(v'), s.fnmatch, pkg, thread);
      }
    } else {
      var a, b := LeaderMoves(s, v, pkg, thread, SetsSched, SchedPair);
      ThreadHitsGive(s.RulesOf(a), s.fnmatch, pkg, thread);
      ThreadHitsGive(s.RulesOf(b), s.fnmatch, pkg, thread);
    }
  }

  /** The same for the nice value. */
  lemma NiceOverVisits(s: Setup, v: Visit, pkg: string, thread: string)
    requires s.WellKeyed() && s.Ok(v) && NoTies(s.RulesOf(v), s.fnmatch, pkg)
    ensures (forall v' :: s.Ok(v') ==>
      NicePart(s.PolicyOf(v', pkg, thread)) == NicePart(s.PolicyOf(v, pkg, thread))) <==>
      EntriesAgree(s, Winner(s.RulesOf(v), s.fnmatch, pkg), pkg, thread, SetsNice, NiceField)
  {
    hide Resolved, PlainHits, LeaderHit, NoTies, EntriesAgree, Winner, Interested;
    if EntriesAgree(s, Winner(s.RulesOf(v), s.fnmatch, pkg), pkg, thread, SetsNice, NiceField) {
      forall v' | s.Ok(v') ensures NicePart(s.PolicyOf(v', pkg, thread)) == NicePart(s.PolicyOf(v, pkg, thread)) {
        ConfigOrderFree(s, v, v', pkg, thread);
        LeaderSame(s, v, v', pkg, thread, SetsNice, NiceField);
        PackageHitsSame(s, v, v', pkg);
        ThreadHitsGive(s.RulesOf(v), s.fnmatch, pkg, thread);
        ThreadHitsGive(s.RulesOf(v'), s.fnmatch, pkg, thread);
        PackageHitsGive(s.RulesOf(v), s.fnmatch, pkg, thread);
        PackageHitsGive(s.RulesOf(v'), s.fnmatch, pkg, thread);
      }
    } else {
      var a, b := LeaderMoves(s, v, pkg, thread, SetsNice, NiceField);
      ThreadHitsGive(s.RulesOf(a), s.fnmatch, pkg, thread);
      ThreadHitsGive(s.RulesOf(b), s.fnmatch, pkg, thread);
    }
  }

  // ---------- exactly when the winning pattern moves ----------

  /** The compiled rules of the app filed under a key. */
  function AppRulesOf(s: Setup, v: Visit): string -> seq<CompiledRule> {
    (k: string) => FlatMap(AcceptedRules(s.present), AppEntry(s.apps, s.profiles, s.clusters, v.inside)(k))
  }

  lemma RulesByApp(s: Setup, v: Visit)
    ensures s.RulesOf(v) == FlatMap(AppRulesOf(s, v), v.apps)
  {
    hide FlatMap;
    FlatMapTwice(AppEntry(s.apps, s.profiles, s.clusters, v.inside), AcceptedRules(s.present), AppRulesOf(s, v),
      v.apps);
  }

  lemma AppRulesPkg(s: Setup, v: Visit, k: string)
    requires s.WellKeyed()
    ensures forall r :: r in AppRulesOf(s, v)(k) ==> r.pkg == k
  {
    hide FlatMap, AppListing, CompileRule;
    var rcs := AppEntry(s.apps, s.profiles, s.clusters, v.inside)(k);
    forall r | r in AppRulesOf(s, v)(k) ensures r.pkg == k {
      FlatMapMember(AcceptedRules(s.present), rcs, r);
      var rc :| rc in rcs && r in AcceptedRules(s.present)(rc);
      CompileKeepsPkg(rc, s.present);
      AppPkg(s.apps[k], s.profiles, s.clusters, v.inside[k]);
    }
  }

  /** Visiting the app of a top pattern first makes the pattern win. */
  lemma TopAppFirst(s: Setup, v: Visit, pkg: string, p: string) returns (v': Visit)
    requires s.WellKeyed() && s.Ok(v)
    ensures s.Ok(v') && (Top(s.RulesOf(v), s.fnmatch, pkg, p) ==> Winner(s.RulesOf(v'), s.fnmatch, pkg) == Some(p))
  {
    hide FlatMap, AppRulesOf, Compiled, Listing, PatternsOf, Candidate, Winner, Lists;
    v' := v;
    if Top(s.RulesOf(v), s.fnmatch, pkg, p) {
      AppOf(s, v, p);
      var rest := KeyFirst(v.apps, s.apps.Keys, p);
      v' := v.(apps := [p] + rest);
      SameBag(s, v, v');
      RulesByApp(s, v');
      FlatMapConcat(AppRulesOf(s, v'), [p], rest);
      FlatMapOne(AppRulesOf(s, v'), p);
      SameApps(s, v, v');
      assert s.RulesOf(v')[0] == AppRulesOf(s, v')(p)[0];
      AppRulesPkg(s, v', p);
      TopFirst(s.RulesOf(v), s.RulesOf(v'), s.fnmatch, pkg);
    }
  }

  /** A pattern among the rules is filed as an app, and that app has rules. */
  lemma AppOf(s: Setup, v: Visit, p: string)
    requires s.WellKeyed() && s.Ok(v)
    ensures p in PatternsOf(s.RulesOf(v)) ==> p in s.apps && AppRulesOf(s, v)(p) != []
  {
    hide FlatMap, AppRulesOf, Compiled, Listing, PatternsOf, Lists;
    var rules := s.RulesOf(v);
    if p in PatternsOf(rules) {
      PatternsMeaning(rules);
      var r :| r in rules && r.pkg == p;
      RulesByApp(s, v);
      FlatMapMember(AppRulesOf(s, v), v.apps, r);
      var k :| k in v.apps && r in AppRulesOf(s, v)(k);
      AppRulesPkg(s, v, k);
      InOrder(v.apps, s.apps.Keys, p);
    }
  }

  lemma InOrder(order: seq<string>, keys: set<string>, k: string)
    requires Lists(order, keys)
    ensures k in order <==> k in keys
  {
  }

  lemma SameApps(s: Setup, v: Visit, v': Visit)
    requires v.inside == v'.inside
    ensures forall k :: AppRulesOf(s, v)(k) == AppRulesOf(s, v')(k)
  {
  }

  /** The winning pattern is the same in every visiting order exactly when the top score is not shared. */
  lemma WinnerOverVisits(s: Setup, v: Visit, pkg: string)
    requires s.WellKeyed() && s.Ok(v)
    ensures NoTies(s.RulesOf(v), s.fnmatch, pkg) <==>
      forall v' :: s.Ok(v') ==> Winner(s.RulesOf(v'), s.fnmatch, pkg) == Winner(s.RulesOf(v), s.fnmatch, pkg)
  {
    hide Winner, Top;
    if NoTies(s.RulesOf(v), s.fnmatch, pkg) {
      forall v' | s.Ok(v') ensures Winner(s.RulesOf(v'), s.fnmatch, pkg) == Winner(s.RulesOf(v), s.fnmatch, pkg) {
        SameBag(s, v, v');
        SameWinner(s.RulesOf(v), s.RulesOf(v'), s.fnmatch, pkg);
      }
    } else {
      var p, q :| Top(s.RulesOf(v), s.fnmatch, pkg, p) && Top(s.RulesOf(v), s.fnmatch, pkg, q) && p != q;
      var a := TopAppFirst(s, v, pkg, p);
      var b := TopAppFirst(s, v, pkg, q);
    }
  }
}
