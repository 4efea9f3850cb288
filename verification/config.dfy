/**
 Expanding the configuration into rules. Apps, threads and thread types live in hash
 maps, so the loops visit them in an arbitrary order. Each expansion is proved to be
 the listing for some such order: app by app, and in each app the default rule, then
 the threads, then the thread types.
 */
module Config {
  import opened Prelude
  import opened CpuText
  import opened RuleSets

  datatype PolicyModel = PolicyModel(
    cluster: Option<string>,
    cpus: Option<string>,
    uclampMin: Option<nat>,
    uclampMax: Option<nat>,
    sched: Option<string>,
    nice: Option<int>)

  const NO_POLICY := PolicyModel(None, None, None, None, None, None)

  datatype ProfileModel = ProfileModel(default: PolicyModel, threads: map<string, PolicyModel>,
                                       threadTypes: map<string, PolicyModel>)

  const NO_PROFILE := ProfileModel(NO_POLICY, map[], map[])

  datatype AppModel = AppModel(
    pkg: string,
    profile: Option<string>,
    defaultPolicy: PolicyModel,
    threads: map<string, PolicyModel>,
    threadTypes: map<string, PolicyModel>)

  datatype ClusterKind = Prime | Big | Mid | Little | Unknown

  datatype CpuCluster = CpuCluster(kind: ClusterKind, rangeStr: string, capacity: nat)

  // ---------- one policy ----------

  /** The user's fields win; naming CPUs drops the template's cluster and the other way round. */
  function Overridden(base: PolicyModel, user: PolicyModel): PolicyModel {
    PolicyModel(
      if user.cpus.Some? then None else if user.cluster.Some? then user.cluster else base.cluster,
      if user.cpus.Some? then user.cpus else if user.cluster.Some? then None else base.cpus,
      if user.uclampMin.Some? then user.uclampMin else base.uclampMin,
      if user.uclampMax.Some? then user.uclampMax else base.uclampMax,
      if user.sched.Some? then user.sched else base.sched,
      if user.nice.Some? then user.nice else base.nice)
  }

  method OverridePolicy(base: PolicyModel, user: PolicyModel) returns (p: PolicyModel)
    ensures p == Overridden(base, user)
  {
    p := base;
    if user.cluster.Some? {
      p := p.(cluster := user.cluster, cpus := None);
    }
    if user.cpus.Some? {
      p := p.(cpus := user.cpus, cluster := None);
    }
    if user.sched.Some? {
      p := p.(sched := user.sched);
    }
    if user.nice.Some? {
      p := p.(nice := user.nice);
    }
    if user.uclampMin.Some? {
      p := p.(uclampMin := user.uclampMin);
    }
    if user.uclampMax.Some? {
      p := p.(uclampMax := user.uclampMax);
    }
  }

  predicate NamesCpus(p: PolicyModel) { p.cpus.Some? || p.cluster.Some? }

  predicate HasAnyPolicy(p: PolicyModel) {
    NamesCpus(p) || p.sched.Some? || p.nice.Some? || p.uclampMin.Some? || p.uclampMax.Some?
  }

  function KindName(kind: ClusterKind): string {
    match kind
    case Prime => "prime"
    case Big => "big"
    case Mid => "mid"
    case Little => "little"
    case Unknown => "unknown"
  }

  function Lower(s: string): string {
    seq(|s|, i requires 0 <= i < |s| => if 'A' <= s[i] <= 'Z' then s[i] + 32 as char else s[i])
  }

  function FindKind(clusters: seq<CpuCluster>, name: string): Option<CpuCluster> {
    if clusters == [] then None
    else if KindName(clusters[0].kind) == Lower(name) then Some(clusters[0])
    else FindKind(clusters[1..], name)
  }

  /** The cluster of largest capacity, the last one among equals. */
  function Largest(clusters: seq<CpuCluster>): Option<CpuCluster> {
    if clusters == [] then None
    else
      var before := Largest(clusters[..|clusters| - 1]);
      var last := clusters[|clusters| - 1];
      if before.Some? && before.value.capacity > last.capacity then before else Some(last)
  }

  predicate LooksLikeRange(name: string) {
    forall i :: 0 <= i < |name| ==> IsDigit(name[i]) || name[i] == '-' || name[i] == ','
  }

  /** The CPU range a cluster name stands for on this device; an unknown name falls back to the big cluster. */
  function ClusterRange(clusters: seq<CpuCluster>, name: string): Option<string> {
    var named := FindKind(clusters, name);
    if named.Some? then Some(named.value.rangeStr)
    else if LooksLikeRange(name) then Some(name)
    else
      var big := FindKind(clusters, "big");
      var fallback := if big.Some? then big else Largest(clusters);
      if fallback.Some? then Some(fallback.value.rangeStr) else None
  }

  function RangeOf(p: PolicyModel, clusters: seq<CpuCluster>): string {
    var range :=
      if p.cpus.Some? then p.cpus
      else if p.cluster.Some? then ClusterRange(clusters, p.cluster.value) else None;
    if range.Some? then range.value else ""
  }

  function PolicyToRules(pkg: string, thread: string, p: PolicyModel, clusters: seq<CpuCluster>): seq<RuleConfig> {
    if !HasAnyPolicy(p) then []
    else [RuleConfig(pkg, thread, RangeOf(p, clusters), p.sched, p.nice, p.uclampMin, p.uclampMax)]
  }

  function TypePatterns(ttype: string): Option<seq<string>> {
    if ttype == "render" then Some(["*RenderThread*", "*GL*", "*Vk*"])
    else if ttype == "audio" then Some(["*Audio*", "*Sound*"])
    else if ttype == "binder" then Some(["*Binder:*"])
    else if ttype == "main" then Some(["*main*"])
    else None
  }

  function Placeholder(pkg: string): RuleConfig { RuleConfig(pkg, "", "", None, None, None, None) }

  // ---------- one app ----------

  function Merged(base: map<string, PolicyModel>, user: map<string, PolicyModel>): map<string, PolicyModel> {
    map k | k in base.Keys + user.Keys ::
      if k in user then Overridden(if k in base then base[k] else NO_POLICY, user[k]) else base[k]
  }

  type Profiles = map<string, ProfileModel>

  function Template(app: AppModel, profiles: Profiles): ProfileModel {
    if app.profile.Some? && app.profile.value in profiles then profiles[app.profile.value] else NO_PROFILE
  }

  /** The profile's policies under the user's. */
  function Effective(app: AppModel, profiles: Profiles): ProfileModel {
    var t := Template(app, profiles);
    ProfileModel(Overridden(t.default, app.defaultPolicy), Merged(t.threads, app.threads),
      Merged(t.threadTypes, app.threadTypes))
  }

  function ThreadEntry(pkg: string, threads: map<string, PolicyModel>,
                       clusters: seq<CpuCluster>)
    : string -> seq<RuleConfig>
  {
    (k: string) => if k in threads then PolicyToRules(pkg, k, threads[k], clusters) else []
  }

  function PatternRules(pkg: string, patterns: seq<string>, p: PolicyModel,
                        clusters: seq<CpuCluster>)
    : seq<RuleConfig>
  {
    if patterns == [] then []
    else
      PatternRules(pkg, patterns[..|patterns| - 1], p, clusters) +
      PolicyToRules(pkg, patterns[|patterns| - 1], p, clusters)
  }

  function TypeEntry(pkg: string, types: map<string, PolicyModel>,
                     clusters: seq<CpuCluster>)
    : string -> seq<RuleConfig>
  {
    (k: string) => if k in types then TypeEntryRules(pkg, k, types[k], clusters) else []
  }

  /** The rules of a thread type, one for each of its patterns; an unknown type has none. */
  function TypeEntryRules(pkg: string, ttype: string, p: PolicyModel, clusters: seq<CpuCluster>): seq<RuleConfig> {
    match TypePatterns(ttype)
    case None => []
    case Some(patterns) => PatternRules(pkg, patterns, p, clusters)
  }

  predicate SomeCpus(policies: map<string, PolicyModel>) { exists k :: k in policies && NamesCpus(policies[k]) }

  /** Listing keys without repetition. */
  ghost predicate Lists(order: seq<string>, keys: set<string>) {
    Distinct(order) && forall k :: k in order <==> k in keys
  }

  /** An order of the two maps of an app, and an order of the apps with one for each. */
  datatype AppOrder = AppOrder(threads: seq<string>, types: seq<string>)
  datatype Visit = Visit(apps: seq<string>, inside: map<string, AppOrder>)

  ghost predicate AppOrderOk(app: AppModel, profiles: Profiles, o: AppOrder) {
    var e := Effective(app, profiles);
    Lists(o.threads, e.threads.Keys) && Lists(o.types, e.threadTypes.Keys)
  }

  ghost predicate VisitOk(apps: map<string, AppModel>, profiles: Profiles, v: Visit) {
    Lists(v.apps, apps.Keys) && forall k :: k in apps ==> k in v.inside && AppOrderOk(apps[k], profiles, v.inside[k])
  }

  function Placeholders(app: AppModel, e: ProfileModel): seq<RuleConfig> {
    if HasAnyPolicy(e.default) || SomeCpus(e.threads) || SomeCpus(e.threadTypes) then [] else [Placeholder(app.pkg)]
  }

  /** The rules of one app: the default, then the threads, then the thread types, then a placeholder if need be. */
  function AppListing(app: AppModel, profiles: Profiles, clusters: seq<CpuCluster>, o: AppOrder): seq<RuleConfig> {
    var e := Effective(app, profiles);
    PolicyToRules(app.pkg, "", e.default, clusters)
    + FlatMap(ThreadEntry(app.pkg, e.threads, clusters), o.threads)
    + FlatMap(TypeEntry(app.pkg, e.threadTypes, clusters), o.types)
    + Placeholders(app, e)
  }

  function AppEntry(apps: map<string, AppModel>, profiles: Profiles, clusters: seq<CpuCluster>,
                    inside: map<string, AppOrder>)
    : string -> seq<RuleConfig>
  {
    (k: string) => if k in apps && k in inside then AppListing(apps[k], profiles, clusters, inside[k]) else []
  }

  /** The rules of a configuration, in the order of a visit. */
  function Listing(apps: map<string, AppModel>, profiles: Profiles, clusters: seq<CpuCluster>,
                   v: Visit)
    : seq<RuleConfig>
  {
    FlatMap(AppEntry(apps, profiles, clusters, v.inside), v.apps)
  }

  // ---------- the loops ----------

  function Restricted(m: map<string, PolicyModel>, keys: set<string>): map<string, PolicyModel> {
    map k | k in m && k in keys :: m[k]
  }

  /** Visiting the user's entries in any order overrides the template's entries. */
  method MergeInto(base: map<string, PolicyModel>, user: map<string, PolicyModel>) returns (m: map<string, PolicyModel>)
    ensures m == Merged(base, user)
  {
    hide Merged, Restricted, Overridden;
    m := base;
    var todo := user.Keys;
    NothingMerged(base, user);
    while todo != {}
      invariant todo <= user.Keys
      invariant m == Merged(base, Restricted(user, user.Keys - todo))
      decreases todo
    {
      var k :| k in todo;
      var entry := if k in m then m[k] else NO_POLICY;
      entry := OverridePolicy(entry, user[k]);
      MergedStep(base, user, user.Keys - todo, k);
      m := m[k := entry];
      assert user.Keys - todo + {k} == user.Keys - (todo - {k});
      todo := todo - {k};
    }
    AllMerged(user);
    assert user.Keys - todo == user.Keys;
  }

  lemma NothingMerged(base: map<string, PolicyModel>, user: map<string, PolicyModel>)
    ensures Merged(base, Restricted(user, user.Keys - user.Keys)) == base
  {
  }

  lemma MergedStep(base: map<string, PolicyModel>, user: map<string, PolicyModel>, done: set<string>, k: string)
    requires k in user && k !in done
    ensures var m := Merged(base, Restricted(user, done));
            Merged(base, Restricted(user, done + {k})) ==
              m[k := Overridden(if k in m then m[k] else NO_POLICY, user[k])]
  {
    hide Overridden;
  }

  lemma AllMerged(user: map<string, PolicyModel>)
    ensures Restricted(user, user.Keys) == user
  {
  }

  lemma NothingListed(f: string -> seq<RuleConfig>, keys: set<string>)
    ensures Lists([], keys - keys) && FlatMap(f, []) == []
  {
  }

  lemma ListsSnoc(order: seq<string>, keys: set<string>, todo: set<string>, k: string)
    requires Lists(order, keys - todo) && k in todo && todo <= keys
    ensures Lists(order + [k], keys - (todo - {k}))
  {
  }

  method ThreadRules(pkg: string, threads: map<string, PolicyModel>, clusters: seq<CpuCluster>)
    returns (rules: seq<RuleConfig>, ghost order: seq<string>)
    ensures Lists(order, threads.Keys) && rules == FlatMap(ThreadEntry(pkg, threads, clusters), order)
  {
    hide Lists, FlatMap;
    rules, order := [], [];
    var todo := threads.Keys;
    NothingListed(ThreadEntry(pkg, threads, clusters), threads.Keys);
    while todo != {}
      invariant todo <= threads.Keys && Lists(order, threads.Keys - todo)
      invariant rules == FlatMap(ThreadEntry(pkg, threads, clusters), order)
      decreases todo
    {
      var k :| k in todo;
      FlatMapSnoc(ThreadEntry(pkg, threads, clusters), order, k);
      ListsSnoc(order, threads.Keys, todo, k);
      rules := rules + PolicyToRules(pkg, k, threads[k], clusters);
      order := order + [k];
      todo := todo - {k};
    }
    assert threads.Keys - todo == threads.Keys;
  }

  method TypeRules(pkg: string, types: map<string, PolicyModel>, clusters: seq<CpuCluster>)
    returns (rules: seq<RuleConfig>, ghost order: seq<string>)
    ensures Lists(order, types.Keys) && rules == FlatMap(TypeEntry(pkg, types, clusters), order)
  {
    hide TypePatterns, Lists, FlatMap;
    rules, order := [], [];
    var todo := types.Keys;
    NothingListed(TypeEntry(pkg, types, clusters), types.Keys);
    while todo != {}
      invariant todo <= types.Keys && Lists(order, types.Keys - todo)
      invariant rules == FlatMap(TypeEntry(pkg, types, clusters), order)
      decreases todo
    {
      var k :| k in todo;
      FlatMapSnoc(TypeEntry(pkg, types, clusters), order, k);
      ListsSnoc(order, types.Keys, todo, k);
      var patterns := TypePatterns(k);
      if patterns.Some? {
        var more := PatternLoop(pkg, patterns.value, types[k], clusters);
        rules := rules + more;
      }
      order := order + [k];
      todo := todo - {k};
    }
    assert types.Keys - todo == types.Keys;
  }

  method PatternLoop(pkg: string, patterns: seq<string>, p: PolicyModel, clusters: seq<CpuCluster>)
    returns (rules: seq<RuleConfig>)
    ensures rules == PatternRules(pkg, patterns, p, clusters)
  {
    rules := [];
    for i := 0 to |patterns|
      invariant rules == PatternRules(pkg, patterns[..i], p, clusters)
    {
      assert patterns[..i + 1][..i] == patterns[..i];
      rules := rules + PolicyToRules(pkg, patterns[i], p, clusters);
    }
    assert patterns[..|patterns|] == patterns;
  }

  method AppRules(app: AppModel, profiles: Profiles, clusters: seq<CpuCluster>)
    returns (rules: seq<RuleConfig>, ghost o: AppOrder)
    ensures AppOrderOk(app, profiles, o) && rules == AppListing(app, profiles, clusters, o)
  {
    hide FlatMap, PolicyToRules, HasAnyPolicy, Lists;
    var t := Template(app, profiles);
    var default := OverridePolicy(t.default, app.defaultPolicy);
    var threads := MergeInto(t.threads, app.threads);
    var types := MergeInto(t.threadTypes, app.threadTypes);
    rules := PolicyToRules(app.pkg, "", default, clusters);
    DefaultRules(app.pkg, default, clusters);
    var hasDefault := rules != [];
    var more, threadOrder := ThreadRules(app.pkg, threads, clusters);
    rules := rules + more;
    ghost var typeOrder: seq<string>;
    more, typeOrder := TypeRules(app.pkg, types, clusters);
    rules := rules + more;
    if !(hasDefault || SomeCpus(threads) || SomeCpus(types)) {
      rules := rules + [Placeholder(app.pkg)];
    }
    o := AppOrder(threadOrder, typeOrder);
  }

  lemma DefaultRules(pkg: string, p: PolicyModel, clusters: seq<CpuCluster>)
    ensures PolicyToRules(pkg, "", p, clusters) != [] <==> HasAnyPolicy(p)
  {
  }

  /** Expanding a configuration lists its rules in the order of some visit. */
  method ToRules(apps: map<string, AppModel>, profiles: Profiles, clusters: seq<CpuCluster>)
    returns (rules: seq<RuleConfig>, ghost v: Visit)
    ensures VisitOk(apps, profiles, v) && rules == Listing(apps, profiles, clusters, v)
  {
    hide AppListing, AppOrderOk, Lists, FlatMap;
    rules := [];
    ghost var order: seq<string>, inside: map<string, AppOrder> := [], map[];
    var todo := apps.Keys;
    NothingListed(AppEntry(apps, profiles, clusters, inside), apps.Keys);
    while todo != {}
      invariant todo <= apps.Keys && Lists(order, apps.Keys - todo)
      invariant inside.Keys == apps.Keys - todo && forall k :: k in inside ==> AppOrderOk(apps[k], profiles, inside[k])
      invariant rules == FlatMap(AppEntry(apps, profiles, clusters, inside), order)
      decreases todo
    {
      var k :| k in todo;
      var more, o := AppRules(apps[k], profiles, clusters);
      ListsSnoc(order, apps.Keys, todo, k);
      NextApp(apps, profiles, clusters, inside, order, k, o);
      rules := rules + more;
      order, inside := order + [k], inside[k := o];
      todo := todo - {k};
    }
    assert apps.Keys - todo == apps.Keys;
    v := Visit(order, inside);
  }

  lemma NextApp(apps: map<string, AppModel>, profiles: Profiles, clusters: seq<CpuCluster>,
                inside: map<string, AppOrder>, order: seq<string>, k: string, o: AppOrder)
    requires Lists(order, inside.Keys) && k !in inside && k in apps
    ensures FlatMap(AppEntry(apps, profiles, clusters, inside[k := o]), order + [k]) ==
      FlatMap(AppEntry(apps, profiles, clusters, inside), order) + AppListing(apps[k], profiles, clusters, o)
  {
    hide AppListing, FlatMap;
    var f, f' := AppEntry(apps, profiles, clusters, inside), AppEntry(apps, profiles, clusters, inside[k := o]);
    FlatMapSame(f, f', order);
    FlatMapSnoc(f', order, k);
  }

  // ---------- all listings hold the same rules ----------

  lemma ListsPermute(a: seq<string>, b: seq<string>, keys: set<string>)
    requires Lists(a, keys) && Lists(b, keys)
    ensures multiset(a) == multiset(b)
  {
    forall k ensures multiset(a)[k] == multiset(b)[k] {
      DistinctCount(a, k);
      DistinctCount(b, k);
    }
  }

  lemma AppListingBag(app: AppModel, profiles: Profiles, clusters: seq<CpuCluster>, o: AppOrder, o': AppOrder)
    requires AppOrderOk(app, profiles, o) && AppOrderOk(app, profiles, o')
    ensures multiset(AppListing(app, profiles, clusters, o)) == multiset(AppListing(app, profiles, clusters, o'))
  {
    hide FlatMap, Lists, PolicyToRules, Placeholders, Effective;
    var e := Effective(app, profiles);
    ListsPermute(o.threads, o'.threads, e.threads.Keys);
    ListsPermute(o.types, o'.types, e.threadTypes.Keys);
    FlatMapPermutes(ThreadEntry(app.pkg, e.threads, clusters), o.threads, o'.threads);
    FlatMapPermutes(TypeEntry(app.pkg, e.threadTypes, clusters), o.types, o'.types);
  }

  /** Whatever the order of the hash maps, the expansion holds the same rules equally often. */
  lemma ListingBag(apps: map<string, AppModel>, profiles: Profiles, clusters: seq<CpuCluster>, v: Visit, v': Visit)
    requires VisitOk(apps, profiles, v) && VisitOk(apps, profiles, v')
    ensures multiset(Listing(apps, profiles, clusters, v)) == multiset(Listing(apps, profiles, clusters, v'))
  {
    hide FlatMap, Lists, AppListing, AppOrderOk;
    var f, f' := AppEntry(apps, profiles, clusters, v.inside), AppEntry(apps, profiles, clusters, v'.inside);
    ListsPermute(v.apps, v'.apps, apps.Keys);
    FlatMapPermutes(f, v.apps, v'.apps);
    forall k ensures k in v'.apps ==> multiset(f(k)) == multiset(f'(k)) {
      if k in apps {
        AppListingBag(apps[k], profiles, clusters, v.inside[k], v'.inside[k]);
      }
      assert Lists(v'.apps, apps.Keys);
    }
    FlatMapBags(f, f', v'.apps);
  }

  // ---------- apps without rules ----------

  /** A thread type without built-in patterns yields no rule. */
  lemma {:induction false} PatternRulesEmpty(pkg: string, patterns: seq<string>, p: PolicyModel,
                                             clusters: seq<CpuCluster>)
    ensures PatternRules(pkg, patterns, p, clusters) == [] <==> patterns == [] || !HasAnyPolicy(p)
  {
    if patterns != [] {
      PatternRulesEmpty(pkg, patterns[..|patterns| - 1], p, clusters);
    }
  }

  ghost predicate KnownTypePolicy(types: map<string, PolicyModel>) {
    exists k :: k in types && TypePatterns(k).Some? && HasAnyPolicy(types[k])
  }

  /**
   The placeholder is meant to keep every configured app on the whitelist. It fails for exactly these
   apps: nothing set by default, for any thread or for any built-in thread type, and CPUs set for a
   thread type that is not built in.
   */
  lemma AppWithoutRules(app: AppModel, profiles: Profiles, clusters: seq<CpuCluster>, o: AppOrder)
    requires AppOrderOk(app, profiles, o)
    ensures var e := Effective(app, profiles);
            AppListing(app, profiles, clusters, o) == [] <==>
              && !HasAnyPolicy(e.default)
              && (forall k :: k in e.threads ==> !HasAnyPolicy(e.threads[k]))
              && !KnownTypePolicy(e.threadTypes)
              && SomeCpus(e.threadTypes)
  {
    hide Effective, FlatMap, TypePatterns, ThreadEntry, TypeEntry, HasAnyPolicy, NamesCpus;
    var e := Effective(app, profiles);
    NoThreadRules(app.pkg, e.threads, clusters, o.threads);
    NoTypeRules(app.pkg, e.threadTypes, clusters, o.types);
    DefaultRules(app.pkg, e.default, clusters);
    CpusIsPolicy(e.threads);
  }

  lemma CpusIsPolicy(policies: map<string, PolicyModel>)
    ensures SomeCpus(policies) ==> exists k :: k in policies && HasAnyPolicy(policies[k])
  {
  }

  lemma NoThreadRules(pkg: string, threads: map<string, PolicyModel>, clusters: seq<CpuCluster>, order: seq<string>)
    requires Lists(order, threads.Keys)
    ensures FlatMap(ThreadEntry(pkg, threads, clusters), order) == [] <==>
      forall k :: k in threads ==> !HasAnyPolicy(threads[k])
  {
    hide FlatMap;
    FlatMapEmpty(ThreadEntry(pkg, threads, clusters), order);
    forall k | k in threads ensures ThreadEntry(pkg, threads, clusters)(k) == [] <==> !HasAnyPolicy(threads[k]) {
    }
  }

  lemma {:induction false} NoTypeRules(pkg: string, types: map<string, PolicyModel>, clusters: seq<CpuCluster>,
                                       order: seq<string>)
    requires Lists(order, types.Keys)
    ensures FlatMap(TypeEntry(pkg, types, clusters), order) == [] <==> !KnownTypePolicy(types)
  {
    hide FlatMap, TypePatterns, HasAnyPolicy;
    FlatMapEmpty(TypeEntry(pkg, types, clusters), order);
    forall k | k in types { TypeRulesEmpty(pkg, k, types, clusters); }
  }

  lemma TypeRulesEmpty(pkg: string, k: string, types: map<string, PolicyModel>, clusters: seq<CpuCluster>)
    requires k in types
    ensures TypeEntry(pkg, types, clusters)(k) == [] <==> TypePatterns(k).None? || !HasAnyPolicy(types[k])
  {
    var patterns := TypePatterns(k);
    if patterns.Some? {
      PatternRulesEmpty(pkg, patterns.value, types[k], clusters);
    }
  }

  /** The app `app "a" { thread-type "gpu" cpus="0-3" }` yields no rule. */
  lemma UnknownTypeOnly(profiles: Profiles, clusters: seq<CpuCluster>)
    ensures var app := AppModel("a", None, NO_POLICY, map[], map["gpu" := NO_POLICY.(cpus := Some("0-3"))]);
            && AppOrderOk(app, profiles, AppOrder([], ["gpu"]))
            && AppListing(app, profiles, clusters, AppOrder([], ["gpu"])) == []
  {
    var gpu := NO_POLICY.(cpus := Some("0-3"));
    var app, o := AppModel("a", None, NO_POLICY, map[], map["gpu" := gpu]), AppOrder([], ["gpu"]);
    var e := Effective(app, profiles);
    assert e.default == NO_POLICY && e.threads == map[] && e.threadTypes == map["gpu" := gpu];
    assert TypePatterns("gpu").None?;
    assert NamesCpus(e.threadTypes["gpu"]);
    AppWithoutRules(app, profiles, clusters, o);
  }
}
