/**
 What the rules of a configured app say: each field of a rule is the user's where the user sets
 it and the profile's otherwise.
 */
module ConfigRules {
  import opened Prelude
  import opened CpuText
  import opened RuleSets
  import opened Config

  // ---------- one policy ----------

  /** A policy sets at least one field. */
  predicate Sets(p: PolicyModel) {
    p.cluster.Some? || p.cpus.Some? || p.uclampMin.Some? || p.uclampMax.Some? || p.sched.Some? || p.nice.Some?
  }

  function RangeText(clusters: seq<CpuCluster>, cluster: string): string {
    var r := ClusterRange(clusters, cluster);
    if r.Some? then r.value else ""
  }

  /**
   The rule is made of a template's policy and a user's. CPUs come from one place: the user's CPUs, else
   the user's cluster, else the template's CPUs, else its cluster.
   */
  predicate MadeOf(rc: RuleConfig, template: PolicyModel, user: PolicyModel, clusters: seq<CpuCluster>) {
    && rc.sched == (if user.sched.Some? then user.sched else template.sched)
    && rc.nice == (if user.nice.Some? then user.nice else template.nice)
    && rc.uclampMin == (if user.uclampMin.Some? then user.uclampMin else template.uclampMin)
    && rc.uclampMax == (if user.uclampMax.Some? then user.uclampMax else template.uclampMax)
    && rc.cpus ==
         if user.cpus.Some? then user.cpus.value
         else if user.cluster.Some? then RangeText(clusters, user.cluster.value)
         else if template.cpus.Some? then template.cpus.value
         else if template.cluster.Some? then RangeText(clusters, template.cluster.value) else ""
  }

  /** An entry gives one rule if the template or the user sets anything, and none otherwise. */
  lemma EntryMeaning(pkg: string, thread: string, template: PolicyModel, user: PolicyModel, clusters: seq<CpuCluster>)
    ensures var rules := PolicyToRules(pkg, thread, Overridden(template, user), clusters);
            if Sets(template) || Sets(user)
            then |rules| == 1 && rules[0].pkg == pkg && rules[0].thread == thread &&
              MadeOf(rules[0], template, user, clusters)
            else rules == []
  {
    hide ClusterRange;
  }

  // ---------- the rules of an app ----------

  /** The built-in thread types and their patterns. */
  predicate PatternOf(ttype: string, pattern: string) {
    || (ttype == "render" && pattern in {"*RenderThread*", "*GL*", "*Vk*"})
    || (ttype == "audio" && pattern in {"*Audio*", "*Sound*"})
    || (ttype == "binder" && pattern == "*Binder:*")
    || (ttype == "main" && pattern == "*main*")
  }

  lemma PatternTable(ttype: string, pattern: string)
    ensures PatternOf(ttype, pattern) <==> TypePatterns(ttype).Some? && pattern in TypePatterns(ttype).value
  {
  }

  function Entry(m: map<string, PolicyModel>, k: string): PolicyModel { if k in m then m[k] else NO_POLICY }

  /** The built-in profile that an app names, or an empty one. */
  predicate IsTemplate(t: ProfileModel, app: AppModel, profiles: Profiles) {
    if app.profile.Some? && app.profile.value in profiles then t == profiles[app.profile.value]
    else t == ProfileModel(NO_POLICY, map[], map[])
  }

  /** The rule comes from an entry of the template's and the user's maps. */
  predicate EntryRule(rc: RuleConfig, template: map<string, PolicyModel>, user: map<string, PolicyModel>, k: string,
                      clusters: seq<CpuCluster>)
  {
    && (k in template || k in user) && (Sets(Entry(template, k)) || Sets(Entry(user, k)))
    && MadeOf(rc, Entry(template, k), Entry(user, k), clusters)
  }

  lemma MergedEntry(template: map<string, PolicyModel>, user: map<string, PolicyModel>, k: string)
    ensures k in Merged(template, user) <==> k in template || k in user
    ensures k in Merged(template, user) ==>
      Sets(Merged(template, user)[k]) == (Sets(Entry(template, k)) || Sets(Entry(user, k)))
    ensures k in Merged(template, user) ==> forall pkg, thread, clusters ::
      PolicyToRules(pkg, thread, Merged(template, user)[k], clusters) ==
      PolicyToRules(pkg, thread, Overridden(Entry(template, k), Entry(user, k)), clusters)
  {
    hide PolicyToRules;
    if k in template && k !in user {
      forall pkg, thread, clusters
        ensures PolicyToRules(pkg, thread, template[k], clusters) ==
          PolicyToRules(pkg, thread, Overridden(template[k], NO_POLICY), clusters)
      {
        SamePolicy(pkg, thread, template[k], clusters);
      }
    }
  }

  /** Overriding nothing changes no rule. */
  lemma SamePolicy(pkg: string, thread: string, p: PolicyModel, clusters: seq<CpuCluster>)
    ensures PolicyToRules(pkg, thread, p, clusters) == PolicyToRules(pkg, thread, Overridden(p, NO_POLICY), clusters)
  {
  }

  lemma ThreadEntries(app: AppModel, t: ProfileModel, profiles: Profiles, clusters: seq<CpuCluster>,
                      order: seq<string>, rc: RuleConfig)
    requires IsTemplate(t, app, profiles) && Lists(order, Effective(app, profiles).threads.Keys)
    ensures rc in FlatMap(ThreadEntry(app.pkg, Effective(app, profiles).threads, clusters), order) <==>
      exists k :: rc.pkg == app.pkg && rc.thread == k && EntryRule(rc, t.threads, app.threads, k, clusters)
  {
    hide FlatMap, PolicyToRules, MadeOf, Overridden, Sets;
    var m := Merged(t.threads, app.threads);
    assert Effective(app, profiles).threads == m;
    FlatMapMember(ThreadEntry(app.pkg, m, clusters), order, rc);
    forall k ensures k in m ==> (rc in PolicyToRules(app.pkg, k, m[k], clusters) <==>
      rc.pkg == app.pkg && rc.thread == k && EntryRule(rc, t.threads, app.threads, k, clusters))
    {
      MergedEntry(t.threads, app.threads, k);
      OneRule(app.pkg, k, Entry(t.threads, k), Entry(app.threads, k), clusters, rc);
    }
    forall k { MergedEntry(t.threads, app.threads, k); }
  }

  lemma OneRule(pkg: string, thread: string, template: PolicyModel, user: PolicyModel, clusters: seq<CpuCluster>,
                rc: RuleConfig)
    ensures rc in PolicyToRules(pkg, thread, Overridden(template, user), clusters) <==>
      rc.pkg == pkg && rc.thread == thread && (Sets(template) || Sets(user)) && MadeOf(rc, template, user, clusters)
  {
    hide PolicyToRules, Overridden, Sets;
    EntryMeaning(pkg, thread, template, user, clusters);
  }

  lemma {:induction false} PatternMember(pkg: string, patterns: seq<string>, p: PolicyModel, clusters: seq<CpuCluster>,
                                         rc: RuleConfig)
    ensures rc in PatternRules(pkg, patterns, p, clusters) <==>
      exists q :: q in patterns && rc in PolicyToRules(pkg, q, p, clusters)
  {
    hide PolicyToRules;
    if patterns != [] {
      var init, last := patterns[..|patterns| - 1], patterns[|patterns| - 1];
      assert patterns == init + [last];
      PatternMember(pkg, init, p, clusters, rc);
    }
  }

  lemma {:induction false} TypeEntries(app: AppModel, t: ProfileModel, profiles: Profiles, clusters: seq<CpuCluster>,
                                       order: seq<string>,
                    rc: RuleConfig)
    requires IsTemplate(t, app, profiles) && Lists(order, Effective(app, profiles).threadTypes.Keys)
    ensures rc in FlatMap(TypeEntry(app.pkg, Effective(app, profiles).threadTypes, clusters), order) <==>
      exists k :: rc.pkg == app.pkg && PatternOf(k, rc.thread) &&
        EntryRule(rc, t.threadTypes, app.threadTypes, k, clusters)
  {
    hide FlatMap, PolicyToRules, MadeOf, Overridden, Sets, PatternOf, TypePatterns, PatternRules;
    var m := Merged(t.threadTypes, app.threadTypes);
    assert Effective(app, profiles).threadTypes == m;
    FlatMapMember(TypeEntry(app.pkg, m, clusters), order, rc);
    forall k ensures k in m ==> (rc in TypeEntryRules(app.pkg, k, m[k], clusters) <==>
      rc.pkg == app.pkg && PatternOf(k, rc.thread) && EntryRule(rc, t.threadTypes, app.threadTypes, k, clusters))
    {
      OneType(app, t, k, clusters, rc);
    }
    forall k { MergedEntry(t.threadTypes, app.threadTypes, k); }
  }

  lemma OneType(app: AppModel, t: ProfileModel, k: string, clusters: seq<CpuCluster>, rc: RuleConfig)
    ensures var m := Merged(t.threadTypes, app.threadTypes);
            k in m ==> (rc in TypeEntryRules(app.pkg, k, m[k], clusters) <==>
              rc.pkg == app.pkg && PatternOf(k, rc.thread) &&
                EntryRule(rc, t.threadTypes, app.threadTypes, k, clusters))
  {
    hide PolicyToRules, MadeOf, Overridden, Sets, PatternOf, TypePatterns, PatternRules, Merged;
    var m := Merged(t.threadTypes, app.threadTypes);
    MergedEntry(t.threadTypes, app.threadTypes, k);
    PatternTable(k, rc.thread);
    if k in m && TypePatterns(k).Some? {
      PatternMember(app.pkg, TypePatterns(k).value, m[k], clusters, rc);
      forall q ensures rc in PolicyToRules(app.pkg, q, m[k], clusters) <==>
        rc.pkg == app.pkg && rc.thread == q && EntryRule(rc, t.threadTypes, app.threadTypes, k, clusters)
      {
        OneRule(app.pkg, q, Entry(t.threadTypes, k), Entry(app.threadTypes, k), clusters, rc);
      }
    }
  }

  /** An entry names CPUs or a cluster, for the user or in the template. */
  ghost predicate CpusNamed(template: map<string, PolicyModel>, user: map<string, PolicyModel>) {
    exists k :: (k in template || k in user)
      && (Entry(template, k).cpus.Some? || Entry(template, k).cluster.Some?
          || Entry(user, k).cpus.Some? || Entry(user, k).cluster.Some?)
  }

  lemma CpusNamedMeaning(template: map<string, PolicyModel>, user: map<string, PolicyModel>)
    ensures SomeCpus(Merged(template, user)) <==> CpusNamed(template, user)
  {
    var m := Merged(template, user);
    forall k ensures k in m ==> (NamesCpus(m[k]) <==>
      Entry(template, k).cpus.Some? || Entry(template, k).cluster.Some?
      || Entry(user, k).cpus.Some? || Entry(user, k).cluster.Some?)
    {
    }
  }

  /**
   The rules of an app are exactly these: one from the default policies, one from the policies of each
   thread, one for each pattern of each built-in thread type from the policies of the type, each where
   template or user sets anything; and an empty one if neither the defaults set anything nor any thread
   or type names CPUs.
   */
  lemma AppRulesMeaning(app: AppModel, t: ProfileModel, profiles: Profiles, clusters: seq<CpuCluster>, o: AppOrder,
                        rc: RuleConfig)
    requires IsTemplate(t, app, profiles) && AppOrderOk(app, profiles, o)
    ensures rc in AppListing(app, profiles, clusters, o) <==>
      && rc.pkg == app.pkg
      && (|| (rc.thread == "" && (Sets(t.default) || Sets(app.defaultPolicy)) &&
        MadeOf(rc, t.default, app.defaultPolicy, clusters))
          || EntryRule(rc, t.threads, app.threads, rc.thread, clusters)
          || (exists k :: PatternOf(k, rc.thread) && EntryRule(rc, t.threadTypes, app.threadTypes, k, clusters))
          || (rc == RuleConfig(app.pkg, "", "", None, None, None, None) && !Sets(t.default) && !Sets(app.defaultPolicy)
              && !CpusNamed(t.threads, app.threads) && !CpusNamed(t.threadTypes, app.threadTypes)))
  {
    hide FlatMap, PolicyToRules, MadeOf, Overridden, PatternOf, EntryRule, Lists, Merged, CpusNamed;
    var e := Effective(app, profiles);
    ThreadEntries(app, t, profiles, clusters, o.threads, rc);
    TypeEntries(app, t, profiles, clusters, o.types, rc);
    OneRule(app.pkg, "", t.default, app.defaultPolicy, clusters, rc);
    CpusNamedMeaning(t.threads, app.threads);
    CpusNamedMeaning(t.threadTypes, app.threadTypes);
    AnyPolicy(t.default, app.defaultPolicy);
    assert e == ProfileModel(Overridden(t.default, app.defaultPolicy), Merged(t.threads, app.threads),
      Merged(t.threadTypes, app.threadTypes));
  }

  lemma AnyPolicy(template: PolicyModel, user: PolicyModel)
    ensures HasAnyPolicy(Overridden(template, user)) <==> Sets(template) || Sets(user)
  {
  }

  // ---------- clusters ----------

  /** The name is the word, in any mix of ASCII upper and lower case. */
  predicate Spells(name: string, word: string) {
    |name| == |word| && forall i :: 0 <= i < |name| ==>
      if 'A' <= name[i] <= 'Z' then name[i] as int + 32 == word[i] as int else name[i] == word[i]
  }

  /** The cluster goes by the name. */
  predicate Called(c: CpuCluster, name: string) {
    || (c.kind == Prime && Spells(name, "prime")) || (c.kind == Big && Spells(name, "big"))
    || (c.kind == Mid && Spells(name, "mid")) || (c.kind == Little && Spells(name, "little"))
    || (c.kind == ClusterKind.Unknown && Spells(name, "unknown"))
  }

  lemma LowerSpells(name: string, word: string)
    ensures Lower(name) == word <==> Spells(name, word)
  {
    if Spells(name, word) {
      assert forall i :: 0 <= i < |name| ==> Lower(name)[i] == word[i];
    }
    if Lower(name) == word {
      assert forall i :: 0 <= i < |name| ==> Lower(name)[i] == word[i];
    }
  }

  lemma CalledMeaning(c: CpuCluster, name: string)
    ensures KindName(c.kind) == Lower(name) <==> Called(c, name)
  {
    hide Lower, Spells;
    LowerSpells(name, "prime");
    LowerSpells(name, "big");
    LowerSpells(name, "mid");
    LowerSpells(name, "little");
    LowerSpells(name, "unknown");
  }

  /** The first cluster that goes by the name. */
  lemma {:induction false} FindMeaning(clusters: seq<CpuCluster>, name: string)
    ensures var r := FindKind(clusters, name);
            && (r.None? <==> forall c :: c in clusters ==> !Called(c, name))
            && (r.Some? ==> exists i :: 0 <= i < |clusters| && clusters[i] == r.value && Called(r.value, name)
                                        && forall j :: 0 <= j < i ==> !Called(clusters[j], name))
  {
    hide Called, Lower, KindName;
    if clusters != [] {
      var first, rest := clusters[0], clusters[1..];
      assert clusters == [first] + rest;
      FindMeaning(rest, name);
      CalledMeaning(first, name);
      var r := FindKind(clusters, name);
      if r.Some? && !Called(first, name) {
        var i :| 0 <= i < |rest| && rest[i] == r.value && forall j :: 0 <= j < i ==> !Called(rest[j], name);
        assert clusters[i + 1] == r.value;
        assert forall j :: 1 <= j < i + 1 ==> clusters[j] == rest[j - 1];
      }
    }
  }

  /** No cluster has more capacity, and none after it has as much. */
  predicate LastLargest(clusters: seq<CpuCluster>, i: nat) {
    && i < |clusters|
    && (forall j :: 0 <= j < |clusters| ==> clusters[j].capacity <= clusters[i].capacity)
    && (forall j :: i < j < |clusters| ==> clusters[j].capacity < clusters[i].capacity)
  }

  lemma {:induction false} LargestMeaning(clusters: seq<CpuCluster>)
    ensures var r := Largest(clusters);
            && (r.None? <==> clusters == [])
            && (r.Some? ==> exists i :: 0 <= i < |clusters| && clusters[i] == r.value && LastLargest(clusters, i))
  {
    if clusters != [] {
      var n := |clusters| - 1;
      LargestMeaning(clusters[..n]);
      var before := Largest(clusters[..n]);
      if before.Some? && before.value.capacity > clusters[n].capacity {
        var i :| 0 <= i < n && clusters[..n][i] == before.value
          && LastLargest(clusters[..n], i);
        assert forall j :: 0 <= j < n ==> clusters[j] == clusters[..n][j];
        assert LastLargest(clusters, i);
      } else {
        assert forall j :: 0 <= j < n ==> clusters[j] == clusters[..n][j];
        assert clusters[n] == Largest(clusters).value && LastLargest(clusters, n);
      }
    }
  }

  /**
   What a cluster name stands for: the cluster of that name, else the text itself if it looks like a
   range, else the big cluster, else the one of largest capacity, else nothing.
   */
  lemma {:induction false} ClusterMeaning(clusters: seq<CpuCluster>, name: string)
    ensures var r, named, big := ClusterRange(clusters, name), FindKind(clusters, name), FindKind(clusters, "big");
            var range := forall c :: c in name ==> '0' <= c <= '9' || c == '-' || c == ',';
            r == if named.Some? then Some(named.value.rangeStr) else if range then Some(name)
                 else if big.Some? then Some(big.value.rangeStr)
                 else if clusters != [] then Some(Largest(clusters).value.rangeStr) else None
  {
    hide FindKind, Largest;
    LargestMeaning(clusters);
    if forall c :: c in name ==> '0' <= c <= '9' || c == '-' || c == ',' {
      forall i | 0 <= i < |name| ensures IsDigit(name[i]) || name[i] == '-' || name[i] == ',' {
        assert name[i] in name;
      }
    }
  }
}
