/**
 The observation window: per-thread statistics updated sample by sample, proved equal
 to functions of the thread's whole sample history since it was last dropped.
 */
module Observe {
  import opened Prelude

  const WINDOW_SAMPLES: nat := 150

  datatype Snapshot = Snapshot(tid: int, name: string, affinity: string, runningCpu: Option<nat>, loadPct: nat)

  datatype Entry = Entry(seqNo: nat, cpu: Option<nat>, affinity: string)

  datatype ThreadStats = ThreadStats(
    tid: int,
    name: string,
    migrations: nat,
    affinityChanges: nat,
    cpuDistribution: map<nat, nat>,
    samples: nat,
    avgLoadPct: nat,
    maxLoadPct: nat,
    primaryCpu: Option<nat>)

  /** One sample of a thread and the number of the batch it came in. */
  datatype Obs = Obs(seqNo: nat, snap: Snapshot)

  type History = seq<Obs>

  // ---------- functions of a history ----------

  function Moved(a: Snapshot, b: Snapshot): bool {
    a.runningCpu.Some? && b.runningCpu.Some? && a.runningCpu != b.runningCpu
  }

  /** Neighbouring samples on two known, different CPUs. */
  function Migrations(h: History): nat {
    if |h| < 2 then 0
    else Migrations(h[..|h| - 1]) + if Moved(h[|h| - 2].snap, h[|h| - 1].snap) then 1 else 0
  }

  /** Neighbouring samples with different affinity texts. */
  function AffinityChanges(h: History): nat {
    if |h| < 2 then 0
    else AffinityChanges(h[..|h| - 1]) + if h[|h| - 2].snap.affinity != h[|h| - 1].snap.affinity then 1 else 0
  }

  function SamplesOn(h: History, cpu: nat): nat {
    if h == [] then 0 else SamplesOn(h[..|h| - 1], cpu) + if h[|h| - 1].snap.runningCpu == Some(cpu) then 1 else 0
  }

  function MaxLoad(h: History): nat {
    if h == [] then 0
    else
      var before := MaxLoad(h[..|h| - 1]);
      if h[|h| - 1].snap.loadPct > before then h[|h| - 1].snap.loadPct else before
  }

  /** The running average: each sample is averaged in, and the remainder dropped. */
  function RunningAvg(h: History): nat {
    if h == [] then 0 else Averaged(RunningAvg(h[..|h| - 1]), |h| - 1, h[|h| - 1].snap.loadPct)
  }

  /** The average of `n` samples with one more averaged in. */
  function Averaged(avg: nat, n: nat, x: nat): nat {
    assert avg * n >= 0;
    (avg * n + x) / (n + 1)
  }

  function TotalLoad(h: History): nat {
    if h == [] then 0 else TotalLoad(h[..|h| - 1]) + h[|h| - 1].snap.loadPct
  }

  function EntryOf(o: Obs): Entry { Entry(o.seqNo, o.snap.runningCpu, o.snap.affinity) }

  /** The entries of the last 150 samples. */
  function Recent(h: History): (r: seq<Entry>)
    ensures |r| == if |h| <= WINDOW_SAMPLES then |h| else WINDOW_SAMPLES
  {
    var last := if |h| <= WINDOW_SAMPLES then h else h[|h| - WINDOW_SAMPLES..];
    seq(|last|, i requires 0 <= i < |last| => EntryOf(last[i]))
  }

  ghost predicate Distributed(dist: map<nat, nat>, h: History) {
    forall c :: (c in dist <==> SamplesOn(h, c) > 0) && (c in dist ==> dist[c] == SamplesOn(h, c))
  }

  /** A CPU with the most samples, if any sample had a known CPU. */
  ghost predicate IsPrimary(primary: Option<nat>, dist: map<nat, nat>) {
    match primary
    case None => dist == map[]
    case Some(p) => p in dist && forall c :: c in dist ==> dist[c] <= dist[p]
  }

  ghost predicate StatsOf(s: ThreadStats, tid: int, h: History) {
    && h != []
    && s.tid == tid && s.name == h[|h| - 1].snap.name && s.samples == |h|
    && s.migrations == Migrations(h) && s.affinityChanges == AffinityChanges(h)
    && s.maxLoadPct == MaxLoad(h) && s.avgLoadPct == RunningAvg(h)
    && Distributed(s.cpuDistribution, h) && IsPrimary(s.primaryCpu, s.cpuDistribution)
  }

  type Histories = map<int, History>

  function HistoryOf(hs: Histories, tid: int): History { if tid in hs then hs[tid] else [] }

  /** A batch appends each of its snapshots to its thread's history. */
  function Appended(hs: Histories, batch: seq<Snapshot>, seqNo: nat): Histories {
    if batch == [] then hs
    else
      var before, snap := Appended(hs, batch[..|batch| - 1], seqNo), batch[|batch| - 1];
      before[snap.tid := HistoryOf(before, snap.tid) + [Obs(seqNo, snap)]]
  }

  // ---------- the window ----------

  class SnapshotWindow {
    var recent: map<int, seq<Entry>>
    var stats: map<int, ThreadStats>
    var seqNo: nat
    ghost var histories: Histories

    ghost predicate Valid()
      reads this
    {
      && recent.Keys == histories.Keys && stats.Keys == histories.Keys
      && forall t :: t in histories ==> StatsOf(stats[t], t, histories[t]) && recent[t] == Recent(histories[t])
    }

    constructor ()
      ensures Valid() && histories == map[]
    {
      recent, stats, seqNo, histories := map[], map[], 0, map[];
    }

    method PushBatch(batch: seq<Snapshot>)
      requires Valid()
      modifies this
      ensures Valid()
      ensures seqNo == old(seqNo) + 1
      ensures histories == Appended(old(histories), batch, seqNo)
    {
      seqNo := seqNo + 1;
      for k := 0 to |batch|
        invariant Valid() && seqNo == old(seqNo) + 1
        invariant histories == Appended(old(histories), batch[..k], seqNo)
      {
        assert batch[..k + 1][..k] == batch[..k];
        PushOne(batch[k]);
      }
      assert batch[..|batch|] == batch;
    }

    method PushOne(snap: Snapshot)
      requires Valid()
      modifies this`recent, this`stats, this`histories
      ensures Valid()
      ensures histories == old(histories)[snap.tid := HistoryOf(old(histories), snap.tid) + [Obs(seqNo, snap)]]
    {
      hide StatsOf, StatsSoFar, Recent;
      ghost var h, o := HistoryOf(histories, snap.tid), Obs(seqNo, snap);
      var st :=
        if snap.tid in stats then stats[snap.tid]
        else ThreadStats(snap.tid, snap.name, 0, 0, map[], 0, 0, 0, None);
      var q := if snap.tid in recent then recent[snap.tid] else [];
      NoSamples(snap.tid, snap.name);
      st, q := Updated(st, q, snap, seqNo, h);
      stats := stats[snap.tid := st];
      recent := recent[snap.tid := q];
      histories := histories[snap.tid := h + [o]];
    }

    method Retain(alive: set<int>)
      requires Valid()
      modifies this
      ensures Valid() && seqNo == old(seqNo)
      ensures histories == map t | t in old(histories) && t in alive :: old(histories)[t]
    {
      hide StatsOf, Recent;
      recent := map t | t in recent && t in alive :: recent[t];
      stats := map t | t in stats && t in alive :: stats[t];
      histories := map t | t in histories && t in alive :: histories[t];
    }
  }

  /** Statistics before the first sample. */
  ghost predicate StatsSoFar(s: ThreadStats, tid: int, h: History) {
    && s.tid == tid && s.samples == |h|
    && s.migrations == Migrations(h) && s.affinityChanges == AffinityChanges(h)
    && s.maxLoadPct == MaxLoad(h) && s.avgLoadPct == RunningAvg(h)
    && Distributed(s.cpuDistribution, h)
  }

  lemma NoSamples(tid: int, name: string)
    ensures StatsSoFar(ThreadStats(tid, name, 0, 0, map[], 0, 0, 0, None), tid, []) && Recent([]) == []
    ensures forall s, h :: StatsOf(s, tid, h) ==> StatsSoFar(s, tid, h)
  {
  }

  lemma RecentLast(h: History)
    requires h != []
    ensures Recent(h) != [] && Recent(h)[|Recent(h)| - 1] == EntryOf(h[|h| - 1])
  {
  }

  lemma RecentSnoc(h: History, o: Obs)
    ensures Recent(h + [o]) ==
      if |h| < WINDOW_SAMPLES then Recent(h) + [EntryOf(o)] else (Recent(h) + [EntryOf(o)])[1..]
  {
  }

  lemma StatsSnoc(h: History, o: Obs)
    ensures MaxLoad(h + [o]) == if o.snap.loadPct > MaxLoad(h) then o.snap.loadPct else MaxLoad(h)
    ensures RunningAvg(h + [o]) == Averaged(RunningAvg(h), |h|, o.snap.loadPct)
    ensures forall c: nat :: SamplesOn(h + [o], c) == SamplesOn(h, c) + if o.snap.runningCpu == Some(c) then 1 else 0
  {
    assert (h + [o])[..|h|] == h;
  }

  lemma ChangesSnoc(h: History, o: Obs)
    ensures Migrations(h + [o]) == Migrations(h) + if h != [] && Moved(h[|h| - 1].snap, o.snap) then 1 else 0
    ensures AffinityChanges(h + [o]) ==
      AffinityChanges(h) + if h != [] && h[|h| - 1].snap.affinity != o.snap.affinity then 1 else 0
  {
    assert (h + [o])[..|h|] == h;
  }

  /** One pass of the loop over a batch. */
  method Updated(st0: ThreadStats, q0: seq<Entry>, snap: Snapshot, seqNo: nat, ghost h: History)
    returns (st: ThreadStats, q: seq<Entry>)
    requires StatsSoFar(st0, snap.tid, h) && q0 == Recent(h)
    ensures StatsOf(st, snap.tid, h + [Obs(seqNo, snap)]) && q == Recent(h + [Obs(seqNo, snap)])
  {
    hide Migrations, AffinityChanges, MaxLoad, RunningAvg, SamplesOn, Recent;
    ghost var o := Obs(seqNo, snap);
    StatsSnoc(h, o);
    ChangesSnoc(h, o);
    RecentSnoc(h, o);
    st := st0.(name := snap.name, samples := st0.samples + 1);
    st := st.(avgLoadPct := Averaged(st.avgLoadPct, st.samples - 1, snap.loadPct));
    if snap.loadPct > st.maxLoadPct {
      st := st.(maxLoadPct := snap.loadPct);
    }
    var dist := Bumped(st.cpuDistribution, snap.runningCpu, h, o);
    q := q0;
    var migrations, changes := st.migrations, st.affinityChanges;
    if q != [] {
      RecentLast(h);
      var prev := q[|q| - 1];
      if snap.runningCpu.Some? && prev.cpu.Some? && snap.runningCpu.value != prev.cpu.value {
        migrations := migrations + 1;
      }
      if prev.affinity != snap.affinity {
        changes := changes + 1;
      }
    }
    q := q + [Entry(seqNo, snap.runningCpu, snap.affinity)];
    while |q| > WINDOW_SAMPLES
      invariant |q| <= WINDOW_SAMPLES + 1
      invariant q == (if |q| > WINDOW_SAMPLES then Recent(h) + [EntryOf(o)] else Recent(h + [o]))
    {
      q := q[1..];
    }
    var primary := ComputePrimary(dist);
    st := st.(cpuDistribution := dist, migrations := migrations, affinityChanges := changes, primaryCpu := primary);
  }

  method Bumped(dist0: map<nat, nat>, cpu: Option<nat>, ghost h: History, ghost o: Obs) returns (dist: map<nat, nat>)
    requires Distributed(dist0, h) && o.snap.runningCpu == cpu
    ensures Distributed(dist, h + [o])
  {
    hide SamplesOn;
    StatsSnoc(h, o);
    dist := dist0;
    if cpu.Some? {
      dist := dist[cpu.value := (if cpu.value in dist then dist[cpu.value] else 0) + 1];
    }
  }

  /** The most frequent CPU; hash order decides between equals. */
  method ComputePrimary(dist: map<nat, nat>) returns (primary: Option<nat>)
    ensures IsPrimary(primary, dist)
  {
    primary := None;
    var todo := dist.Keys;
    while todo != {}
      invariant todo <= dist.Keys
      invariant primary.None? ==> todo == dist.Keys
      invariant primary.Some? ==> primary.value in dist
      invariant primary.Some? ==> forall c :: c in dist && c !in todo ==> dist[c] <= dist[primary.value]
      decreases todo
    {
      SomeCpu(todo);
      var c :| c in todo;
      todo := todo - {c};
      if primary.None? || dist[c] >= dist[primary.value] {
        primary := Some(c);
      }
    }
  }

  lemma SomeCpu(s: set<nat>)
    ensures s == {} || exists c :: c in s
  {
    if forall c :: c !in s {
      assert s == {};
    }
  }

  // ---------- what the statistics mean ----------

  /** Remainders dropped by the running average so far. */
  function Dropped(h: History): nat {
    if h == [] then 0
    else Dropped(h[..|h| - 1]) + Remainder(RunningAvg(h[..|h| - 1]), |h| - 1, h[|h| - 1].snap.loadPct)
  }

  /** What averaging in one more sample drops. */
  function Remainder(avg: nat, n: nat, x: nat): nat {
    assert avg * n >= 0;
    (avg * n + x) % (n + 1)
  }

  lemma AveragedAccounts(avg: nat, n: nat, x: nat)
    ensures Averaged(avg, n, x) * (n + 1) + Remainder(avg, n, x) == avg * n + x
  {
    assert avg * n >= 0;
    DivMod(avg * n + x, n + 1);
  }

  lemma DivMod(x: nat, n: nat)
    requires n > 0
    ensures (x / n) * n + x % n == x && 0 <= x % n < n
  {
  }

  lemma AwayFromZero(k: int, n: int)
    requires n >= 0
    ensures k >= 1 ==> k * n >= n
    ensures k <= -1 ==> k * n <= -n
  {
    if k >= 1 {
      assert (k - 1) * n >= 0;
    } else if k <= -1 {
      assert (k + 1) * n <= 0;
    }
  }

  lemma QuotientBounds(x: nat, n: nat, q: nat)
    requires n > 0
    ensures q <= x / n <==> q * n <= x
  {
    DivMod(x, n);
    var k := q - x / n;
    AwayFromZero(k, n);
    assert k * n == q * n - x + x % n;
  }

  /** The running average times the number of samples, plus what was dropped, is the total load. */
  lemma {:induction false} AverageAccounts(h: History)
    ensures RunningAvg(h) * |h| + Dropped(h) == TotalLoad(h)
  {
    if h != [] {
      var before := h[..|h| - 1];
      AverageAccounts(before);
      AveragedAccounts(RunningAvg(before), |h| - 1, h[|h| - 1].snap.loadPct);
    }
  }

  /** So it never exceeds the mean. */
  lemma {:induction false} AverageIsLowerBound(h: History)
    requires h != []
    ensures RunningAvg(h) * |h| <= TotalLoad(h)
    ensures RunningAvg(h) <= TotalLoad(h) / |h|
  {
    AverageAccounts(h);
    QuotientBounds(TotalLoad(h), |h|, RunningAvg(h));
  }

  // ---------- when the running average is exact ----------

  /** The running average is the mean, rounded down. */
  predicate Exact(h: History)
    requires h != []
  {
    RunningAvg(h) == TotalLoad(h) / |h|
  }

  /** What rounding the mean down leaves over. */
  function Rest(h: History): nat
    requires h != []
  {
    TotalLoad(h) % |h|
  }

  /** Averaging one more sample into an exact average keeps it exact just when the rest does not shrink. */
  lemma ExactStep(total: nat, n: nat, x: nat)
    requires n > 0
    ensures Averaged(total / n, n, x) == (total + x) / (n + 1) <==> (total + x) % (n + 1) >= total % n
  {
    var q, r, m, all := total / n, total % n, n + 1, total + x;
    DivMod(total, n);
    DivMod(all, m);
    assert q * n + x == all - r;
    QuotientBounds(all - r, m, all / m);
    QuotientBounds(all - r, m, all / m + 1);
    assert (all / m + 1) * m == (all / m) * m + m;
  }

  lemma ExactSnoc(h: History, o: Obs)
    requires h != [] && Exact(h)
    ensures Exact(h + [o]) <==> Rest(h + [o]) >= Rest(h)
  {
    assert (h + [o])[..|h|] == h;
    ExactStep(TotalLoad(h), |h|, o.snap.loadPct);
  }

  lemma ExactOnce(o: Obs)
    ensures Exact([o])
  {
    AddObs([], o);
    assert [] + [o] == [o];
    AveragedIs(0, 0, o.snap.loadPct, o.snap.loadPct);
  }

  lemma AddObs(h: History, o: Obs)
    ensures RunningAvg(h + [o]) == Averaged(RunningAvg(h), |h|, o.snap.loadPct)
    ensures TotalLoad(h + [o]) == TotalLoad(h) + o.snap.loadPct
  {
    assert (h + [o])[..|h|] == h;
  }

  /**
   The average is exact all along a history exactly when the rests of the true means never shrink, a
   condition on the sums of the loads alone.
   */
  lemma {:induction false} ExactThroughout(h: History)
    ensures (forall k :: 1 <= k <= |h| ==> Exact(h[..k])) <==>
      (forall k :: 2 <= k <= |h| ==> Rest(h[..k]) >= Rest(h[..k - 1]))
  {
    hide Exact, Rest;
    var n := |h| - 1;
    if n >= 0 {
      var before := h[..n];
      ExactThroughout(before);
      assert forall k :: 0 <= k <= n ==> h[..k] == before[..k];
      assert h[..n + 1] == h && before[..n] == before;
      if n == 0 {
        ExactOnce(h[0]);
        assert h == [h[0]];
      } else if Exact(before) {
        ExactSnoc(before, h[n]);
        assert h == before + [h[n]];
      }
    }
  }

  /** Histories of one length are all exact only up to length two. */
  lemma ExactLengths(n: nat)
    requires n > 0
    ensures (forall h: History :: |h| == n ==> Exact(h)) <==> n <= 2
  {
    if n <= 2 {
      forall h: History | |h| == n ensures Exact(h) {
        ExactThroughout(h);
        assert h[..n] == h;
      }
    } else {
      RisingFallsShort(n);
    }
  }

  /** The shortfall is at most (n - 1) / 2 per sample; loads that rise by one from 0 attain it. */
  lemma {:induction false} Shortfall(h: History)
    ensures 2 * (TotalLoad(h) - RunningAvg(h) * |h|) <= |h| * (|h| - 1)
  {
    AverageAccounts(h);
    if h != [] {
      var before := h[..|h| - 1];
      Shortfall(before);
      AverageAccounts(before);
      assert Dropped(h) <= Dropped(before) + |h| - 1;
      Triangle(|h|);
    }
  }

  lemma Triangle(n: int)
    ensures n * (n - 1) == (n - 1) * (n - 2) + 2 * (n - 1)
  {
  }

  function Rising(n: nat): History { seq(n, i requires 0 <= i < n => Load(i)) }

  /** The loads 0, 1, .., n - 1 have the mean (n - 1) / 2, yet their running average is 0. */
  lemma {:induction false} RisingLoads(n: nat)
    ensures RunningAvg(Rising(n)) == 0 && 2 * TotalLoad(Rising(n)) == n * (n - 1)
  {
    hide RunningAvg, TotalLoad, Averaged;
    EmptySums();
    if n == 0 {
      assert Rising(n) == [];
    } else {
      var before, x := Rising(n - 1), n - 1;
      RisingLoads(n - 1);
      assert Rising(n) == before + [Load(x)] && |before| == x;
      AddObs(before, Load(x));
      AveragedIs(0, x, x, 0);
      Triangle(n);
    }
  }

  lemma RisingFallsShort(n: nat)
    requires n >= 3
    ensures |Rising(n)| == n && !Exact(Rising(n))
  {
    hide RunningAvg, TotalLoad;
    RisingLoads(n);
    TimesMonotone(2, n - 1, n);
    QuotientBounds(TotalLoad(Rising(n)), n, 1);
  }

  function Load(x: nat): Obs { Obs(0, Snapshot(0, "", "", None, x)) }

  /** Loads 1, 0, 2 have mean 1, yet their running average is 0. */
  lemma AverageCanFallShort(a: nat, b: nat, c: nat)
    requires a == 1 && b == 0 && c == 2
    ensures var h := [Load(a), Load(b), Load(c)]; RunningAvg(h) == 0 && TotalLoad(h) / |h| == 1
  {
    hide RunningAvg, TotalLoad, Averaged;
    EmptySums();
    AddObs([], Load(a));
    AddObs([Load(a)], Load(b));
    AddObs([Load(a), Load(b)], Load(c));
    AveragedIs(0, 0, a, 1);
    AveragedIs(1, 1, b, 0);
    AveragedIs(0, 2, c, 0);
    assert [] + [Load(a)] == [Load(a)] && [Load(a)] + [Load(b)] == [Load(a), Load(b)];
    assert [Load(a), Load(b)] + [Load(c)] == [Load(a), Load(b), Load(c)];
  }

  lemma EmptySums()
    ensures RunningAvg([]) == 0 && TotalLoad([]) == 0
  {
  }

  lemma AveragedIs(avg: nat, n: nat, x: nat, q: nat)
    requires q * (n + 1) <= avg * n + x < (q + 1) * (n + 1)
    ensures Averaged(avg, n, x) == q
  {
    QuotientBounds(avg * n + x, n + 1, q);
    QuotientBounds(avg * n + x, n + 1, q + 1);
  }

  // ---------- the counts as sets ----------

  /** The i-th sample was taken on another CPU than the one before it, both being known. */
  predicate MovedAt(h: History, i: int)
    requires 0 < i < |h|
  {
    match (h[i - 1].snap.runningCpu, h[i].snap.runningCpu)
    case (Some(before), Some(now)) => before != now
    case _ => false
  }

  lemma {:induction false} MigrationsMeaning(h: History)
    ensures Migrations(h) == |set i | 0 < i < |h| && MovedAt(h, i)|
  {
    var all := set i | 0 < i < |h| && MovedAt(h, i);
    if |h| >= 2 {
      var n := |h| - 1;
      var init := h[..n];
      MigrationsMeaning(init);
      var before := set i | 0 < i < n && MovedAt(init, i);
      assert forall i :: 0 < i < n ==> (MovedAt(h, i) <==> MovedAt(init, i));
      assert all == before + if MovedAt(h, n) then {n} else {};
    } else {
      assert all == {};
    }
  }

  predicate RetargetedAt(h: History, i: int)
    requires 0 < i < |h|
  {
    !(h[i - 1].snap.affinity == h[i].snap.affinity)
  }

  lemma {:induction false} AffinityMeaning(h: History)
    ensures AffinityChanges(h) == |set i | 0 < i < |h| && RetargetedAt(h, i)|
  {
    var all := set i | 0 < i < |h| && RetargetedAt(h, i);
    if |h| >= 2 {
      var n := |h| - 1;
      var init := h[..n];
      AffinityMeaning(init);
      var before := set i | 0 < i < n && RetargetedAt(init, i);
      assert forall i :: 0 < i < n ==> (RetargetedAt(h, i) <==> RetargetedAt(init, i));
      assert all == before + if RetargetedAt(h, n) then {n} else {};
    } else {
      assert all == {};
    }
  }

  lemma {:induction false} SamplesMeaning(h: History, cpu: nat)
    ensures SamplesOn(h, cpu) == |set i | 0 <= i < |h| && h[i].snap.runningCpu == Some(cpu)|
  {
    var all := set i | 0 <= i < |h| && h[i].snap.runningCpu == Some(cpu);
    if h != [] {
      var n := |h| - 1;
      SamplesMeaning(h[..n], cpu);
      var before := set i | 0 <= i < n && h[..n][i].snap.runningCpu == Some(cpu);
      assert all == before + if h[n].snap.runningCpu == Some(cpu) then {n} else {};
    }
  }

  lemma {:induction false} MaxMeaning(h: History)
    ensures forall i :: 0 <= i < |h| ==> h[i].snap.loadPct <= MaxLoad(h)
    ensures h != [] ==> exists i :: 0 <= i < |h| && h[i].snap.loadPct == MaxLoad(h)
  {
    if h != [] {
      var n := |h| - 1;
      MaxMeaning(h[..n]);
      if h[n].snap.loadPct <= MaxLoad(h[..n]) && n > 0 {
        var i :| 0 <= i < n && h[..n][i].snap.loadPct == MaxLoad(h[..n]);
        assert h[i].snap.loadPct == MaxLoad(h);
      } else {
        assert h[n].snap.loadPct == MaxLoad(h);
      }
    }
  }

  /** The recent entries are those of the last 150 samples, in order. */
  lemma RecentMeaning(h: History)
    ensures var r := Recent(h);
            && |r| == (if |h| <= 150 then |h| else 150)
            && forall i :: 0 <= i < |r| ==>
                 var o := h[|h| - |r| + i]; r[i] == Entry(o.seqNo, o.snap.runningCpu, o.snap.affinity)
  {
    var r := Recent(h);
    var last := if |h| <= WINDOW_SAMPLES then h else h[|h| - WINDOW_SAMPLES..];
    forall i | 0 <= i < |r| ensures r[i] == EntryOf(last[i]) && last[i] == h[|h| - |r| + i] {
    }
  }

  function Known(h: History): nat {
    if h == [] then 0 else Known(h[..|h| - 1]) + if h[|h| - 1].snap.runningCpu.Some? then 1 else 0
  }

  /** A thread needs a known CPU before and after each migration, and the average never exceeds the peak. */
  lemma {:induction false} StatsBounds(h: History)
    ensures Migrations(h) < Known(h) || Migrations(h) == 0
    ensures AffinityChanges(h) < |h| || h == []
    ensures RunningAvg(h) <= MaxLoad(h)
  {
    if h != [] {
      var n := |h| - 1;
      StatsBounds(h[..n]);
      assert n > 0 && Moved(h[n - 1].snap, h[n].snap) ==> Known(h[..n]) >= 1;
      AverageBelow(RunningAvg(h[..n]), n, h[n].snap.loadPct, MaxLoad(h));
    }
  }

  lemma AverageBelow(avg: nat, n: nat, x: nat, bound: nat)
    requires avg <= bound && x <= bound
    ensures Averaged(avg, n, x) <= bound
  {
    TimesMonotone(avg, bound, n);
    QuotientBounds(avg * n + x, n + 1, bound + 1);
  }

  lemma TimesMonotone(a: nat, b: nat, n: nat)
    requires a <= b
    ensures 0 <= a * n <= b * n
    ensures (b + 1) * (n + 1) == b * n + b + n + 1
  {
    assert (b - a) * n >= 0;
  }
}
