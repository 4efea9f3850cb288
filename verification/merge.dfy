/**
 Merging the matched rules into one policy. The single pass over the sorted
 matches is proved equal to a table that says, field by field and without any
 order of evaluation, what the merged policy is.
 */
module Merge {
  import opened Prelude
  import opened CpuText
  import opened Rules

  /** A matched rule as merging sees it. */
  datatype Hit = Hit(policy: Policy, source: RuleSource)

  function Rank(h: Hit): nat { h.source.Priority() }

  predicate HasCpus(h: Hit) { h.policy.cpus != {} }
  predicate SetsSched(h: Hit) { h.policy.sched.Some? }
  predicate SetsNice(h: Hit) { h.policy.nice.Some? }

  // ---------- the table ----------

  /** Among the hits with CPUs, none has a higher priority than `h`. */
  ghost predicate Leads(hits: seq<Hit>, h: Hit) {
    forall g :: g in hits && HasCpus(g) ==> Rank(g) <= Rank(h)
  }

  /** The union over the highest-priority source that names any CPU. */
  ghost function MergedCpus(hits: seq<Hit>): CpuSet {
    set h, c | h in hits && c in h.policy.cpus && Leads(hits, h) :: c
  }

  /** The first hit in stable priority order that sets a field. */
  function Leader(hits: seq<Hit>, has: Hit -> bool): (r: Option<nat>)
    ensures r.None? ==> forall i :: 0 <= i < |hits| ==> !has(hits[i])
    ensures r.Some? ==> r.value < |hits| && has(hits[r.value])
    ensures r.Some? ==> forall i :: 0 <= i < |hits| && has(hits[i]) ==>
      Rank(hits[i]) < Rank(hits[r.value]) || (Rank(hits[i]) == Rank(hits[r.value]) && r.value <= i)
  {
    if hits == [] then None
    else
      var n := |hits| - 1;
      var before := Leader(hits[..n], has);
      if has(hits[n]) && (before.None? || Rank(hits[before.value]) < Rank(hits[n])) then Some(n) else before
  }

  function LeaderHit(hits: seq<Hit>, has: Hit -> bool): Option<Hit> {
    match Leader(hits, has)
    case None => None
    case Some(i) => Some(hits[i])
  }

  /** The highest floor any hit asks for. */
  function Floor(hits: seq<Hit>): (r: Option<nat>)
    ensures r.None? <==> forall h :: h in hits ==> h.policy.uclampMin.None?
    ensures r.Some? ==> exists h :: h in hits && h.policy.uclampMin == r
    ensures r.Some? ==> forall h :: h in hits && h.policy.uclampMin.Some? ==> h.policy.uclampMin.value <= r.value
  {
    if hits == [] then None
    else
      var n := |hits| - 1;
      var before, last := Floor(hits[..n]), hits[n].policy.uclampMin;
      assert hits == hits[..n] + [hits[n]];
      if last.None? then before
      else if before.None? || before.value < last.value then last else before
  }

  /** The lowest ceiling any hit asks for. */
  function Ceiling(hits: seq<Hit>): (r: Option<nat>)
    ensures r.None? <==> forall h :: h in hits ==> h.policy.uclampMax.None?
    ensures r.Some? ==> exists h :: h in hits && h.policy.uclampMax == r
    ensures r.Some? ==> forall h :: h in hits && h.policy.uclampMax.Some? ==> r.value <= h.policy.uclampMax.value
  {
    if hits == [] then None
    else
      var n := |hits| - 1;
      var before, last := Ceiling(hits[..n]), hits[n].policy.uclampMax;
      assert hits == hits[..n] + [hits[n]];
      if last.None? then before
      else if before.None? || last.value < before.value then last else before
  }

  function SchedOf(leader: Option<Hit>): Option<SchedPolicy> {
    if leader.Some? then leader.value.policy.sched else None
  }

  function PrioOf(leader: Option<Hit>): Option<int> {
    if leader.Some? then leader.value.policy.schedPrio else None
  }

  function NiceOf(leader: Option<Hit>): Option<int> {
    if leader.Some? then leader.value.policy.nice else None
  }

  ghost predicate SetsNothing(hits: seq<Hit>) {
    forall h :: h in hits ==>
      !HasCpus(h) && !SetsSched(h) && !SetsNice(h) && h.policy.uclampMin.None? && h.policy.uclampMax.None?
  }

  /** The merge table: the merged policy, field by field; None exactly when no hit sets any field. */
  ghost function Table(hits: seq<Hit>): Option<Policy> {
    if SetsNothing(hits) then None
    else
      var sched, nice := LeaderHit(hits, SetsSched), LeaderHit(hits, SetsNice);
      Some(Policy(MergedCpus(hits), RangeString(MergedCpus(hits)), SchedOf(sched), PrioOf(sched), NiceOf(nice),
                  Floor(hits), Ceiling(hits)))
  }

  lemma {:induction false} TopHit(hits: seq<Hit>) returns (top: Hit)
    requires exists h :: h in hits && HasCpus(h)
    ensures top in hits && HasCpus(top) && Leads(hits, top)
  {
    var n := |hits| - 1;
    assert hits == hits[..n] + [hits[n]];
    if exists h :: h in hits[..n] && HasCpus(h) {
      top := TopHit(hits[..n]);
      if HasCpus(hits[n]) && Rank(hits[n]) > Rank(top) {
        top := hits[n];
      }
    } else {
      top := hits[n];
    }
  }

  lemma NoMergedCpus(hits: seq<Hit>)
    ensures MergedCpus(hits) == {} <==> forall h :: h in hits ==> !HasCpus(h)
  {
    if exists h :: h in hits && HasCpus(h) {
      var top := TopHit(hits);
      var c :| c in top.policy.cpus;
      assert c in MergedCpus(hits);
    }
  }

  // ---------- stable sort by descending priority ----------

  function Insert<T>(xs: seq<T>, x: T, key: T -> nat): seq<T> {
    if xs == [] || key(xs[|xs| - 1]) >= key(x) then xs + [x]
    else Insert(xs[..|xs| - 1], x, key) + [xs[|xs| - 1]]
  }

  function SortBy<T>(xs: seq<T>, key: T -> nat): seq<T> {
    if xs == [] then [] else Insert(SortBy(xs[..|xs| - 1], key), xs[|xs| - 1], key)
  }

  predicate Descending<T>(xs: seq<T>, key: T -> nat) {
    forall i, j :: 0 <= i < j < |xs| ==> key(xs[i]) >= key(xs[j])
  }

  lemma {:induction false} InsertKeeps<T>(xs: seq<T>, x: T, key: T -> nat)
    ensures multiset(Insert(xs, x, key)) == multiset(xs) + multiset{x}
  {
    if xs != [] && key(xs[|xs| - 1]) < key(x) {
      InsertKeeps(xs[..|xs| - 1], x, key);
      assert xs == xs[..|xs| - 1] + [xs[|xs| - 1]];
    }
  }

  lemma {:induction false} InsertSorted<T>(xs: seq<T>, x: T, key: T -> nat)
    requires Descending(xs, key)
    ensures Descending(Insert(xs, x, key), key)
  {
    if xs != [] && key(xs[|xs| - 1]) < key(x) {
      var init, last := xs[..|xs| - 1], xs[|xs| - 1];
      InsertSorted(init, x, key);
      InsertKeeps(init, x, key);
      DescendingSnoc(Insert(init, x, key), init, x, last, key);
    }
  }

  lemma DescendingSnoc<T>(ys: seq<T>, init: seq<T>, x: T, last: T, key: T -> nat)
    requires Descending(ys, key) && Descending(init + [last], key) && key(last) < key(x)
    requires multiset(ys) == multiset(init) + multiset{x}
    ensures Descending(ys + [last], key)
  {
    forall i | 0 <= i < |ys| ensures key(ys[i]) >= key(last) {
      assert ys[i] in multiset(ys);
      if ys[i] != x {
        assert ys[i] in multiset(init);
        var k :| 0 <= k < |init| && init[k] == ys[i];
        assert key((init + [last])[k]) >= key((init + [last])[|init|]);
      }
    }
  }

  /** Sorting orders the matches by priority and loses none. */
  lemma {:induction false} SortSorts<T>(xs: seq<T>, key: T -> nat)
    ensures Descending(SortBy(xs, key), key)
    ensures multiset(SortBy(xs, key)) == multiset(xs)
  {
    if xs != [] {
      var init, last := xs[..|xs| - 1], xs[|xs| - 1];
      SortSorts(init, key);
      assert xs == init + [last] && SortBy(xs, key) == Insert(SortBy(init, key), last, key);
      hide *;
      InsertSorted(SortBy(init, key), last, key);
      InsertKeeps(SortBy(init, key), last, key);
      assert Descending(SortBy(xs, key), key) && multiset(SortBy(xs, key)) == multiset(xs);
    }
  }

  /** The first element with a property. */
  function First<T>(xs: seq<T>, has: T -> bool): Option<T> {
    if xs == [] then None
    else
      var before := First(xs[..|xs| - 1], has);
      if before.Some? then before else if has(xs[|xs| - 1]) then Some(xs[|xs| - 1]) else None
  }

  lemma FirstSnoc<T>(xs: seq<T>, x: T, has: T -> bool)
    ensures First(xs + [x], has) == if First(xs, has).Some? then First(xs, has) else if has(x) then Some(x) else None
  {
    assert (xs + [x])[..|xs|] == xs;
  }

  lemma {:induction false} FirstIn<T>(xs: seq<T>, has: T -> bool)
    ensures First(xs, has).Some? ==> First(xs, has).value in xs && has(First(xs, has).value)
    ensures First(xs, has).None? ==> forall x :: x in xs ==> !has(x)
  {
    if xs != [] {
      FirstIn(xs[..|xs| - 1], has);
      assert xs == xs[..|xs| - 1] + [xs[|xs| - 1]];
    }
  }

  /** Insertion is stable: it changes the first setter only for a strictly higher key. */
  lemma {:induction false} InsertFirst<T>(xs: seq<T>, x: T, key: T -> nat, has: T -> bool)
    requires Descending(xs, key)
    ensures First(Insert(xs, x, key), has) ==
      if has(x) && (First(xs, has).None? || key(First(xs, has).value) < key(x)) then Some(x) else First(xs, has)
  {
    FirstIn(xs, has);
    if xs == [] || key(xs[|xs| - 1]) >= key(x) {
      FirstSnoc(xs, x, has);
    } else {
      var init, last := xs[..|xs| - 1], xs[|xs| - 1];
      assert xs == init + [last];
      InsertFirst(init, x, key, has);
      FirstSnoc(Insert(init, x, key), last, has);
      FirstSnoc(init, last, has);
      FirstIn(init, has);
    }
  }

  /** In the sorted matches the first setter is the stable-order leader of the unsorted ones. */
  lemma {:induction false} SortFirst(hits: seq<Hit>, has: Hit -> bool)
    ensures First(SortBy(hits, Rank), has) == LeaderHit(hits, has)
  {
    if hits != [] {
      var init, last := hits[..|hits| - 1], hits[|hits| - 1];
      SortFirst(init, has);
      SortSorts(init, Rank);
      InsertFirst(SortBy(init, Rank), last, Rank, has);
    }
  }

  // ---------- bags of hits ----------

  /** CPUs, floor, ceiling and emptiness depend on the bag of hits only. */
  lemma {:induction false} BagFields(hits: seq<Hit>, other: seq<Hit>)
    requires multiset(hits) == multiset(other)
    ensures MergedCpus(hits) == MergedCpus(other)
    ensures Floor(hits) == Floor(other)
    ensures Ceiling(hits) == Ceiling(other)
    ensures SetsNothing(hits) == SetsNothing(other)
    ensures LeaderHit(hits, SetsSched).None? == LeaderHit(other, SetsSched).None?
    ensures LeaderHit(hits, SetsNice).None? == LeaderHit(other, SetsNice).None?
  {
    hide *;
    SameElements(hits, other);
    SameCpus(hits, other);
    SameBounds(hits, other);
    SameLeaders(hits, other);
  }

  lemma SameCpus(hits: seq<Hit>, other: seq<Hit>)
    requires forall h :: h in hits <==> h in other
    ensures MergedCpus(hits) == MergedCpus(other)
    ensures SetsNothing(hits) == SetsNothing(other)
  {
    assert forall h :: h in hits ==> (Leads(hits, h) <==> Leads(other, h));
  }

  lemma {:induction false} SameBounds(hits: seq<Hit>, other: seq<Hit>)
    requires forall h :: h in hits <==> h in other
    ensures Floor(hits) == Floor(other)
    ensures Ceiling(hits) == Ceiling(other)
  {
    hide Floor, Ceiling;
  }

  lemma SameLeaders(hits: seq<Hit>, other: seq<Hit>)
    requires forall h :: h in hits <==> h in other
    ensures LeaderHit(hits, SetsSched).None? == LeaderHit(other, SetsSched).None?
    ensures LeaderHit(hits, SetsNice).None? == LeaderHit(other, SetsNice).None?
  {
    hide *;
    LeaderPresent(hits, SetsSched);
    LeaderPresent(other, SetsSched);
    LeaderPresent(hits, SetsNice);
    LeaderPresent(other, SetsNice);
  }

  lemma LeaderPresent(hits: seq<Hit>, has: Hit -> bool)
    ensures LeaderHit(hits, has).None? <==> forall h :: h in hits ==> !has(h)
  {
  }

  // ---------- the single pass ----------

  function HitOf(m: RuleMatch, rules: seq<CompiledRule>): Hit
    requires m.index < |rules|
  {
    Hit(rules[m.index].policy, m.source)
  }

  predicate InRange(ms: seq<RuleMatch>, rules: seq<CompiledRule>) {
    forall i :: 0 <= i < |ms| ==> ms[i].index < |rules|
  }

  function Hits(ms: seq<RuleMatch>, rules: seq<CompiledRule>): (hits: seq<Hit>)
    requires InRange(ms, rules)
    ensures |hits| == |ms| && forall i :: 0 <= i < |ms| ==> hits[i] == HitOf(ms[i], rules)
  {
    seq(|ms|, i requires 0 <= i < |ms| => HitOf(ms[i], rules))
  }

  function MatchRank(m: RuleMatch): nat { m.source.Priority() }

  lemma HitsSnoc(ms: seq<RuleMatch>, m: RuleMatch, rules: seq<CompiledRule>)
    requires InRange(ms, rules) && m.index < |rules|
    ensures InRange(ms + [m], rules) && Hits(ms + [m], rules) == Hits(ms, rules) + [HitOf(m, rules)]
  {
  }

  lemma {:induction false} InsertHits(ms: seq<RuleMatch>, m: RuleMatch, rules: seq<CompiledRule>)
    requires InRange(ms, rules) && m.index < |rules|
    ensures InRange(Insert(ms, m, MatchRank), rules)
    ensures Hits(Insert(ms, m, MatchRank), rules) == Insert(Hits(ms, rules), HitOf(m, rules), Rank)
  {
    if ms == [] || MatchRank(ms[|ms| - 1]) >= MatchRank(m) {
      HitsSnoc(ms, m, rules);
    } else {
      var init, last := ms[..|ms| - 1], ms[|ms| - 1];
      assert ms == init + [last];
      InsertHits(init, m, rules);
      HitsSnoc(init, last, rules);
      HitsSnoc(Insert(init, m, MatchRank), last, rules);
      assert Hits(ms, rules)[..|ms| - 1] == Hits(init, rules);
    }
  }

  lemma {:induction false} SortHits(ms: seq<RuleMatch>, rules: seq<CompiledRule>)
    requires InRange(ms, rules)
    ensures InRange(SortBy(ms, MatchRank), rules)
    ensures Hits(SortBy(ms, MatchRank), rules) == SortBy(Hits(ms, rules), Rank)
  {
    if ms != [] {
      SortHits(ms[..|ms| - 1], rules);
      InsertHits(SortBy(ms[..|ms| - 1], MatchRank), ms[|ms| - 1], rules);
      assert Hits(ms, rules)[..|ms| - 1] == Hits(ms[..|ms| - 1], rules);
    }
  }

  /** Union of the CPUs of one source. */
  ghost function AtSource(hits: seq<Hit>, source: RuleSource): CpuSet {
    set h, c | h in hits && h.source == source && c in h.policy.cpus :: c
  }

  lemma AtSourceSnoc(hits: seq<Hit>, h: Hit, source: RuleSource)
    ensures AtSource(hits + [h], source) == AtSource(hits, source) + if h.source == source then h.policy.cpus else {}
  {
  }

  /** In sorted hits the winning source is the source of the first hit with CPUs. */
  lemma {:induction false} WinningSource(hits: seq<Hit>)
    requires Descending(hits, Rank)
    ensures First(hits, HasCpus).None? ==> MergedCpus(hits) == {}
    ensures First(hits, HasCpus).Some? ==> MergedCpus(hits) == AtSource(hits, First(hits, HasCpus).value.source)
  {
    FirstIn(hits, HasCpus);
    var f := First(hits, HasCpus);
    if f.Some? {
      FirstRanksHighest(hits);
      forall c: nat ensures c in MergedCpus(hits) <==> c in AtSource(hits, f.value.source) {
        forall h | h in hits && c in h.policy.cpus ensures Leads(hits, h) <==> h.source == f.value.source {
          PriorityInjective(h.source, f.value.source);
        }
      }
    }
  }

  lemma {:induction false} FirstRanksHighest(hits: seq<Hit>)
    requires Descending(hits, Rank) && First(hits, HasCpus).Some?
    ensures forall h :: h in hits && HasCpus(h) ==> Rank(h) <= Rank(First(hits, HasCpus).value)
  {
    var init, last := hits[..|hits| - 1], hits[|hits| - 1];
    assert hits == init + [last];
    FirstIn(init, HasCpus);
    var f := First(init, HasCpus);
    if f.Some? {
      FirstRanksHighest(init);
      var k :| 0 <= k < |init| && init[k] == f.value;
      assert Rank(hits[k]) >= Rank(hits[|init|]);
    }
  }

  /** The CPU locals of the loop: adopted set, current group, and whether each holds anything. */
  datatype Groups = Groups(cpus: CpuSet, cpusSet: bool, group: CpuSet, groupHas: bool, source: Option<RuleSource>)

  ghost predicate GroupsOk(hits: seq<Hit>, g: Groups) {
    && (if hits == [] then g.source.None? else g.source == Some(hits[|hits| - 1].source))
    && match First(hits, HasCpus)
       case None => !g.cpusSet && !g.groupHas && g.group == {} && g.cpus == {}
       case Some(f) =>
         if g.source == Some(f.source)
         then !g.cpusSet && g.groupHas && g.group == AtSource(hits, f.source) && g.cpus == {}
         else g.cpusSet && g.cpus == AtSource(hits, f.source)
  }

  function Flush(g: Groups): Groups {
    if g.groupHas && !g.cpusSet then g.(cpus := g.group, cpusSet := true) else g
  }

  function StepGroups(g: Groups, h: Hit): Groups {
    var g1 := if g.source != Some(h.source)
              then Flush(g).(group := {}, groupHas := false, source := Some(h.source)) else g;
    if h.policy.cpus != {} then g1.(group := g1.group + h.policy.cpus, groupHas := true) else g1
  }

  /** In sorted hits, the source of the first hit with CPUs does not come back once it has passed. */
  lemma SourcePasses(hits: seq<Hit>, h: Hit, f: Hit)
    requires Descending(hits + [h], Rank) && f in hits
    ensures h.source == f.source ==> hits[|hits| - 1].source == f.source
  {
    var last := hits[|hits| - 1];
    var k :| 0 <= k < |hits| && hits[k] == f;
    assert Rank((hits + [h])[k]) >= Rank((hits + [h])[|hits| - 1]) >= Rank((hits + [h])[|hits|]);
    PriorityInjective(last.source, f.source);
  }

  lemma StepGroupsOk(hits: seq<Hit>, h: Hit, g: Groups)
    requires Descending(hits + [h], Rank) && GroupsOk(hits, g)
    ensures GroupsOk(hits + [h], StepGroups(g, h))
  {
    FirstSnoc(hits, h, HasCpus);
    FirstIn(hits, HasCpus);
    var f := First(hits, HasCpus);
    if f.Some? {
      SourcePasses(hits, h, f.value);
      AtSourceSnoc(hits, h, f.value.source);
      StepAfterCpus(hits, h, g, f.value);
    } else {
      AtSourceSnoc(hits, h, h.source);
      assert AtSource(hits, h.source) == {};
      StepBeforeCpus(hits, h, g);
    }
  }

  lemma StepAfterCpus(hits: seq<Hit>, h: Hit, g: Groups, f: Hit)
    requires hits != [] && GroupsOk(hits, g) && First(hits, HasCpus) == First(hits + [h], HasCpus) == Some(f)
    requires h.source == f.source ==> hits[|hits| - 1].source == f.source
    requires AtSource(hits + [h], f.source) ==
      AtSource(hits, f.source) + if h.source == f.source then h.policy.cpus else {}
    ensures GroupsOk(hits + [h], StepGroups(g, h))
  {
    hide First, AtSource;
  }

  lemma StepBeforeCpus(hits: seq<Hit>, h: Hit, g: Groups)
    requires GroupsOk(hits, g) && First(hits, HasCpus) == None
    requires First(hits + [h], HasCpus) == if HasCpus(h) then Some(h) else None
    requires AtSource(hits + [h], h.source) == h.policy.cpus
    ensures GroupsOk(hits + [h], StepGroups(g, h))
  {
    hide First, AtSource;
  }

  lemma FlushOk(hits: seq<Hit>, g: Groups)
    requires Descending(hits, Rank) && GroupsOk(hits, g)
    ensures Flush(g).cpus == MergedCpus(hits)
    ensures Flush(g).cpusSet <==> exists h :: h in hits && HasCpus(h)
  {
    WinningSource(hits);
    FirstIn(hits, HasCpus);
  }

  /** The other locals of the loop. */
  datatype Fields = Fields(sched: Option<SchedPolicy>, prio: Option<int>, nice: Option<int>, floor: Option<nat>,
                           ceiling: Option<nat>)

  ghost predicate FieldsOk(hits: seq<Hit>, f: Fields) {
    && f.sched == SchedOf(First(hits, SetsSched))
    && f.prio == PrioOf(First(hits, SetsSched))
    && f.nice == NiceOf(First(hits, SetsNice))
    && f.floor == Floor(hits)
    && f.ceiling == Ceiling(hits)
  }

  /** The first value stays once there is one. */
  function Earlier<T>(first: Option<T>, next: Option<T>): Option<T> { if first.Some? then first else next }

  function Higher(cur: Option<nat>, m: Option<nat>): Option<nat> {
    if m.None? || (cur.Some? && cur.value >= m.value) then cur else m
  }

  function Lower(cur: Option<nat>, m: Option<nat>): Option<nat> {
    if m.None? || (cur.Some? && cur.value <= m.value) then cur else m
  }

  lemma {:induction false} StepFields(hits: seq<Hit>, h: Hit)
    ensures SchedOf(First(hits + [h], SetsSched)) == Earlier(SchedOf(First(hits, SetsSched)), h.policy.sched)
    ensures PrioOf(First(hits + [h], SetsSched)) ==
      if SchedOf(First(hits, SetsSched)).None? && h.policy.sched.Some? then h.policy.schedPrio
      else PrioOf(First(hits, SetsSched))
    ensures NiceOf(First(hits + [h], SetsNice)) == Earlier(NiceOf(First(hits, SetsNice)), h.policy.nice)
    ensures Floor(hits + [h]) == Higher(Floor(hits), h.policy.uclampMin)
    ensures Ceiling(hits + [h]) == Lower(Ceiling(hits), h.policy.uclampMax)
  {
    FirstSnoc(hits, h, SetsSched);
    FirstSnoc(hits, h, SetsNice);
    FirstIn(hits, SetsSched);
    FirstIn(hits, SetsNice);
    assert (hits + [h])[..|hits|] == hits;
  }

  function StepOf(f: Fields, p: Policy): Fields {
    Fields(Earlier(f.sched, p.sched), if f.sched.None? && p.sched.Some? then p.schedPrio else f.prio,
           Earlier(f.nice, p.nice), Higher(f.floor, p.uclampMin), Lower(f.ceiling, p.uclampMax))
  }

  lemma FieldsStep(hits: seq<Hit>, h: Hit, f: Fields)
    requires FieldsOk(hits, f)
    ensures FieldsOk(hits + [h], StepOf(f, h.policy))
  {
    hide First, Floor, Ceiling, SchedOf, PrioOf, NiceOf, Earlier, Higher, Lower;
    StepFields(hits, h);
  }

  method TakeFields(f: Fields, p: Policy) returns (f': Fields)
    ensures f' == StepOf(f, p)
  {
    var sched, prio, nice, floor, ceiling := f.sched, f.prio, f.nice, f.floor, f.ceiling;
    if sched.None? && p.sched.Some? {
      sched, prio := p.sched, p.schedPrio;
    }
    if nice.None? {
      nice := p.nice;
    }
    if p.uclampMin.Some? {
      floor := Some(if floor.None? || floor.value < p.uclampMin.value then p.uclampMin.value else floor.value);
    }
    if p.uclampMax.Some? {
      ceiling := Some(if ceiling.None? || p.uclampMax.value < ceiling.value then p.uclampMax.value else ceiling.value);
    }
    f' := Fields(sched, prio, nice, floor, ceiling);
  }

  /** The single grouped pass over the sorted matches computes the table. */
  method MergeRules(matches: seq<RuleMatch>, rules: seq<CompiledRule>) returns (policy: Option<Policy>)
    requires InRange(matches, rules)
    ensures policy == Table(Hits(matches, rules))
  {
    hide Table, MergedCpus, First, Floor, Ceiling, SortBy, GroupsOk, FieldsOk;
    var sorted := SortBy(matches, MatchRank);
    SortHits(matches, rules);
    ghost var hits := Hits(sorted, rules);
    SortSorts(Hits(matches, rules), Rank);
    var cpus: CpuSet, group: CpuSet := {}, {};
    var cpusSet, groupHas := false, false;
    var source: Option<RuleSource> := None;
    var f := Fields(None, None, None, None, None);
    NothingYet();
    for k := 0 to |sorted|
      invariant GroupsOk(hits[..k], Groups(cpus, cpusSet, group, groupHas, source))
      invariant FieldsOk(hits[..k], f)
    {
      var m := sorted[k];
      var r := rules[m.index];
      assert hits[..k] + [hits[k]] == hits[..k + 1];
      StepGroupsOk(hits[..k], hits[k], Groups(cpus, cpusSet, group, groupHas, source));
      if source != Some(m.source) {
        if groupHas && !cpusSet {
          cpus, cpusSet := group, true;
        }
        group, groupHas, source := {}, false, Some(m.source);
      }
      if r.policy.cpus != {} {
        group, groupHas := group + r.policy.cpus, true;
      }
      FieldsStep(hits[..k], hits[k], f);
      f := TakeFields(f, r.policy);
    }
    assert hits[..|sorted|] == hits;
    FlushOk(hits, Groups(cpus, cpusSet, group, groupHas, source));
    if groupHas && !cpusSet {
      cpus, cpusSet := group, true;
    }
    Finish(Hits(matches, rules), cpus, cpusSet, f);
    if !cpusSet && f.sched.None? && f.nice.None? && f.floor.None? && f.ceiling.None? {
      return None;
    }
    return Some(Policy(cpus, RangeString(cpus), f.sched, f.prio, f.nice, f.floor, f.ceiling));
  }

  lemma NothingYet()
    ensures GroupsOk([], Groups({}, false, {}, false, None))
    ensures FieldsOk([], Fields(None, None, None, None, None))
  {
  }

  lemma {:induction false} Finish(hits: seq<Hit>, cpus: CpuSet, cpusSet: bool, f: Fields)
    requires cpus == MergedCpus(SortBy(hits, Rank)) && FieldsOk(SortBy(hits, Rank), f)
    requires cpusSet <==> exists h :: h in SortBy(hits, Rank) && HasCpus(h)
    ensures SetsNothing(hits) <==> !cpusSet && f.sched.None? && f.nice.None? && f.floor.None? && f.ceiling.None?
    ensures SetsNothing(hits) ==> Table(hits) == None
    ensures !SetsNothing(hits) ==>
      Table(hits) == Some(Policy(cpus, RangeString(cpus), f.sched, f.prio, f.nice, f.floor, f.ceiling))
  {
    var sorted := SortBy(hits, Rank);
    SortSorts(hits, Rank);
    BagFields(hits, sorted);
    SameElements(hits, sorted);
    SortFirst(hits, SetsSched);
    SortFirst(hits, SetsNice);
    LeaderPresent(hits, SetsSched);
    LeaderPresent(hits, SetsNice);
  }

  // ---------- inheritance ----------

  function Else<T>(primary: Option<T>, fallback: Option<T>): Option<T> { if primary.None? then fallback else primary }

  /** `fallback` fills only what `primary` leaves unset; a scheduling policy brings its own priority along. */
  function Filled(primary: Policy, fallback: Policy): Policy {
    Policy(if primary.cpus == {} then fallback.cpus else primary.cpus, primary.cpusetDir,
           Else(primary.sched, fallback.sched),
           if primary.sched.None? then fallback.schedPrio else primary.schedPrio,
           Else(primary.nice, fallback.nice),
           Else(primary.uclampMin, fallback.uclampMin), Else(primary.uclampMax, fallback.uclampMax))
  }

  method FillMissing(primary: Policy, fallback: Policy) returns (p: Policy)
    ensures p == Filled(primary, fallback)
  {
    p := primary;
    if p.cpus == {} {
      p := p.(cpus := fallback.cpus);
    }
    if p.sched.None? {
      p := p.(sched := fallback.sched, schedPrio := fallback.schedPrio);
    }
    if p.nice.None? {
      p := p.(nice := fallback.nice);
    }
    if p.uclampMin.None? {
      p := p.(uclampMin := fallback.uclampMin);
    }
    if p.uclampMax.None? {
      p := p.(uclampMax := fallback.uclampMax);
    }
  }
}
