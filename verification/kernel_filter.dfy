/** The kernel-side filters: suppressing bursts of events, and the coarse match on thread names. */
module KernelFilter {
  import opened Prelude

  const U64_RANGE: int := 0x1_0000_0000_0000_0000

  // ---------- burst suppression ----------

  const DEDUP_WINDOW_NS: nat := 100_000_000
  const DEDUP_MAX_COUNT: nat := 2

  datatype DedupEntry = DedupEntry(lastNs: nat, count: nat)

  /** Unsigned 64-bit subtraction. */
  function Elapsed(now: nat, last: nat): nat { (now - last) % U64_RANGE }

  /** What one event does to its process's entry, and whether it is dropped. A missing entry reads as zero. */
  function Judged(entry: Option<DedupEntry>, now: nat): (Option<DedupEntry>, bool) {
    var e := if entry.Some? then entry.value else DedupEntry(0, 0);
    if Elapsed(now, e.lastNs) < DEDUP_WINDOW_NS then
      if e.count + 1 > DEDUP_MAX_COUNT then (entry, true) else (Some(DedupEntry(e.lastNs, e.count + 1)), false)
    else (Some(DedupEntry(now, 1)), false)
  }

  type Entries = map<nat, DedupEntry>

  function EntryOf(entries: Entries, pid: nat): Option<DedupEntry> {
    if pid in entries then Some(entries[pid]) else None
  }

  class DedupMap {
    var entries: Entries

    constructor ()
      ensures entries == map[]
    {
      entries := map[];
    }

    method ShouldDedup(pid: nat, now: nat) returns (drop: bool)
      modifies this
      ensures drop == Judged(EntryOf(old(entries), pid), now).1
      ensures EntryOf(entries, pid) == Judged(EntryOf(old(entries), pid), now).0
      ensures forall q :: q != pid ==> EntryOf(entries, q) == EntryOf(old(entries), q)
    {
      var lastNs, count := 0, 0;
      if pid in entries {
        lastNs, count := entries[pid].lastNs, entries[pid].count;
      }
      if Elapsed(now, lastNs) < DEDUP_WINDOW_NS {
        var newCount := count + 1;
        if newCount > DEDUP_MAX_COUNT {
          return true;
        }
        entries := entries[pid := DedupEntry(lastNs, newCount)];
      } else {
        entries := entries[pid := DedupEntry(now, 1)];
      }
      return false;
    }
  }

  /** The history of one process: its entry, the times that passed, and which of them opened a window. */
  datatype Passing = Passing(entry: Option<DedupEntry>, times: seq<nat>, opens: seq<bool>)

  function Next(p: Passing, now: nat): Passing {
    var (entry, drop) := Judged(p.entry, now);
    if drop then p else Passing(entry, p.times + [now], p.opens + [entry.value.count == 1])
  }

  function PassingOf(ts: seq<nat>): Passing {
    if ts == [] then Passing(None, [], []) else Next(PassingOf(ts[..|ts| - 1]), ts[|ts| - 1])
  }

  datatype Event = Event(pid: nat, now: nat)

  /** The times of one process among all events. */
  function TimesOf(evs: seq<Event>, pid: nat): seq<nat> {
    if evs == [] then []
    else
      var before, last := TimesOf(evs[..|evs| - 1], pid), evs[|evs| - 1];
      if last.pid == pid then before + [last.now] else before
  }

  function AllEntries(evs: seq<Event>): Entries {
    if evs == [] then map[]
    else
      var before, last := AllEntries(evs[..|evs| - 1]), evs[|evs| - 1];
      var entry := Judged(EntryOf(before, last.pid), last.now).0;
      if entry.Some? then before[last.pid := entry.value] else before
  }

  /** Processes do not disturb each other: a process's entry depends on its own events only. */
  lemma {:induction false} Independent(evs: seq<Event>, pid: nat)
    ensures EntryOf(AllEntries(evs), pid) == PassingOf(TimesOf(evs, pid)).entry
  {
    if evs != [] {
      hide Judged;
      var last := evs[|evs| - 1];
      Independent(evs[..|evs| - 1], pid);
      if last.pid == pid {
        PassingSnoc(TimesOf(evs[..|evs| - 1], pid), last.now);
        JudgedKeeps(PassingOf(TimesOf(evs[..|evs| - 1], pid)).entry, last.now);
      }
    }
  }

  lemma PassingSnoc(ts: seq<nat>, now: nat)
    ensures PassingOf(ts + [now]) == Next(PassingOf(ts), now)
  {
    assert (ts + [now])[..|ts|] == ts;
  }

  lemma JudgedKeeps(entry: Option<DedupEntry>, now: nat)
    ensures Judged(entry, now).1 ==> Judged(entry, now).0 == entry
    ensures Judged(entry, now).0.Some?
  {
  }

  predicate NonDecreasing(ts: seq<nat>) {
    (forall i, j :: 0 <= i < j < |ts| ==> ts[i] <= ts[j]) && forall i :: 0 <= i < |ts| ==> ts[i] < U64_RANGE
  }

  /** The first event comes at clock 0, or at least one window after boot. */
  predicate StartsClean(ts: seq<nat>) { ts == [] || ts[0] == 0 || ts[0] >= DEDUP_WINDOW_NS }

  /**
   How the i-th event that passed sits among its predecessors: it either opens a window, at least one
   window after the one before was opened, or is the second event of its window.
   */
  ghost predicate Placed(p: Passing, i: nat)
    requires i < |p.times| == |p.opens|
  {
    && (i == 0 ==> p.opens[i])
    && (i >= 1 ==> p.times[i - 1] <= p.times[i])
    && (!p.opens[i] ==> i >= 1 && p.opens[i - 1])
    && (p.opens[i] && i >= 1 && p.opens[i - 1] ==> p.times[i] >= p.times[i - 1] + DEDUP_WINDOW_NS)
    && (p.opens[i] && i >= 2 && !p.opens[i - 1] ==> p.times[i] >= p.times[i - 2] + DEDUP_WINDOW_NS)
  }

  ghost predicate Spaced(p: Passing) {
    |p.opens| == |p.times| && forall i :: 0 <= i < |p.times| ==> Placed(p, i)
  }

  ghost predicate EntryFits(p: Passing) {
    var n := |p.times|;
    match p.entry
    case None => n == 0
    case Some(e) =>
      && n >= e.count && 1 <= e.count <= 2 && |p.opens| == n
      && p.opens[n - e.count] && e.lastNs == p.times[n - e.count] && e.lastNs <= p.times[n - 1]
      && (e.count == 2 ==> !p.opens[n - 1])
  }

  predicate LastAtMost(p: Passing, now: nat) { p.times != [] && p.times[|p.times| - 1] <= now }

  lemma {:induction false} PassingSpaced(ts: seq<nat>)
    requires NonDecreasing(ts) && StartsClean(ts)
    ensures Spaced(PassingOf(ts)) && EntryFits(PassingOf(ts))
    ensures ts != [] ==> LastAtMost(PassingOf(ts), ts[|ts| - 1])
  {
    if ts != [] {
      hide Spaced, EntryFits, Next, LastAtMost;
      var before, now := ts[..|ts| - 1], ts[|ts| - 1];
      PassingSpaced(before);
      if before == [] {
        FirstPasses(now);
      } else {
        assert before[|before| - 1] <= now;
        NextSpaced(PassingOf(before), before[|before| - 1], now);
      }
    } else {
      NothingPassed();
    }
  }

  lemma NothingPassed()
    ensures Spaced(Passing(None, [], [])) && EntryFits(Passing(None, [], []))
  {
  }

  lemma FirstPasses(now: nat)
    requires now == 0 || DEDUP_WINDOW_NS <= now < U64_RANGE
    ensures var p := Next(Passing(None, [], []), now);
            Spaced(p) && EntryFits(p) && LastAtMost(p, now)
  {
    var p := Next(Passing(None, [], []), now);
    assert p.times == [now] && p.opens == [true];
    assert Placed(p, 0);
  }

  lemma NextSpaced(p: Passing, last: nat, now: nat)
    requires Spaced(p) && EntryFits(p) && LastAtMost(p, last) && last <= now < U64_RANGE
    ensures Spaced(Next(p, now)) && EntryFits(Next(p, now)) && LastAtMost(Next(p, now), now)
  {
    var e, n := p.entry.value, |p.times|;
    assert Elapsed(now, e.lastNs) == now - e.lastNs;
    var q := Next(p, now);
    if q.times != p.times {
      forall i | 0 <= i < n ensures Placed(q, i) {
        assert Placed(p, i);
      }
      assert Placed(p, n - 1);
      assert Placed(q, n);
    }
  }

  lemma {:induction false} PassedInOrder(p: Passing, i: nat, j: nat)
    requires Spaced(p) && i <= j < |p.times|
    ensures p.times[i] <= p.times[j]
    decreases j
  {
    if i < j {
      assert Placed(p, j);
      PassedInOrder(p, i, j - 1);
    }
  }

  /**
   In the window opened by an event that passes, at most one more event of the process passes; any
   four events that pass span at least one window, so any half-open window holds at most three.
   */
  lemma AtMostTwoPerWindow(ts: seq<nat>, i: nat)
    requires NonDecreasing(ts) && StartsClean(ts)
    ensures var p := PassingOf(ts);
            |p.opens| == |p.times|
            && (i + 2 < |p.times| && p.opens[i] ==> p.times[i + 2] >= p.times[i] + DEDUP_WINDOW_NS)
            && (i + 3 < |p.times| ==> p.times[i + 3] >= p.times[i] + DEDUP_WINDOW_NS)
  {
    PassingSpaced(ts);
    var p := PassingOf(ts);
    if i + 2 < |p.times| {
      assert Placed(p, i + 1) && Placed(p, i + 2);
    }
    if i + 3 < |p.times| {
      assert Placed(p, i + 3);
    }
  }

  function CountIn(ts: seq<nat>, from: nat, until: nat): nat {
    if ts == [] then 0 else CountIn(ts[..|ts| - 1], from, until) + if from <= ts[|ts| - 1] < until then 1 else 0
  }

  /** At most three events of a process pass in any half-open window. */
  lemma AtMostThreeAnywhere(ts: seq<nat>, from: nat)
    requires NonDecreasing(ts) && StartsClean(ts)
    ensures CountIn(PassingOf(ts).times, from, from + 100_000_000) <= 3
  {
    PassingSpaced(ts);
    var p := PassingOf(ts);
    var times := p.times;
    forall i, j | 0 <= i < j < |times| ensures times[i] <= times[j] {
      PassedInOrder(p, i, j);
    }
    forall i | 0 <= i < |times| - 3 ensures Far(times, i) {
      AtMostTwoPerWindow(ts, i);
    }
    CountSpread(times, from);
  }

  predicate Far(ts: seq<nat>, i: nat)
    requires i < |ts| - 3
  {
    ts[i + 3] >= ts[i] + DEDUP_WINDOW_NS
  }

  lemma {:induction false} CountSpread(ts: seq<nat>, from: nat)
    requires forall i, j :: 0 <= i < j < |ts| ==> ts[i] <= ts[j]
    requires forall i :: 0 <= i < |ts| - 3 ==> Far(ts, i)
    ensures CountIn(ts, from, from + DEDUP_WINDOW_NS) <= 3
  {
    var n, until := |ts|, from + DEDUP_WINDOW_NS;
    if n > 0 {
      var init := ts[..n - 1];
      forall i | 0 <= i < |init| - 3 ensures Far(init, i) {
        assert Far(ts, i);
      }
      CountSpread(init, from);
      if from <= ts[n - 1] < until {
        if n >= 4 {
          assert Far(ts, n - 4);
        }
        CountLast(ts, 3, from, until);
      }
    }
  }

  /** If only the last k elements can fall in the interval, it counts at most k. */
  lemma {:induction false} CountLast(ts: seq<nat>, k: nat, from: nat, until: nat)
    requires forall i :: 0 <= i < |ts| - k ==> ts[i] < from
    ensures CountIn(ts, from, until) <= k
  {
    if ts != [] {
      CountLast(ts[..|ts| - 1], if k > 0 then k - 1 else 0, from, until);
    }
  }

  /** An event is dropped only if two events of the process passed less than one window ago. */
  lemma DroppedAfterTwo(ts: seq<nat>, now: nat)
    requires NonDecreasing(ts + [now]) && StartsClean(ts + [now])
    requires Judged(PassingOf(ts).entry, now).1
    ensures var p := PassingOf(ts).times; |p| >= 2 && p[|p| - 2] + 100_000_000 > now
  {
    assert PassingOf([]).entry == None;
    assert ts != [];
    assert (ts + [now])[|ts|] == now && (ts + [now])[|ts| - 1] == ts[|ts| - 1];
    assert (ts + [now])[0] == ts[0];
    assert forall i :: 0 <= i < |ts| ==> ts[i] == (ts + [now])[i];
    PassingSpaced(ts);
    var p := PassingOf(ts);
    assert Elapsed(now, p.entry.value.lastNs) == now - p.entry.value.lastNs;
  }

  // ---------- the bounds are sharp ----------

  lemma FourEvents(a: nat, b: nat, c: nat, d: nat, from: nat, until: nat)
    ensures PassingOf([a, b, c, d]) == Next(Next(Next(Next(Passing(None, [], []), a), b), c), d)
    ensures CountIn([a, b, c, d], from, until) ==
      Inside(a, from, until) + Inside(b, from, until) + Inside(c, from, until) + Inside(d, from, until)
  {
    Nothing(from, until);
    hide *;
    assert [a] == [] + [a] && [a, b] == [a] + [b] && [a, b, c] == [a, b] + [c] && [a, b, c, d] == [a, b, c] + [d];
    PassingSnoc([], a);
    PassingSnoc([a], b);
    PassingSnoc([a, b], c);
    PassingSnoc([a, b, c], d);
    CountSnoc([], a, from, until);
    CountSnoc([a], b, from, until);
    CountSnoc([a, b], c, from, until);
    CountSnoc([a, b, c], d, from, until);
  }

  function Inside(t: nat, from: nat, until: nat): nat { if from <= t < until then 1 else 0 }

  lemma Nothing(from: nat, until: nat)
    ensures PassingOf([]) == Passing(None, [], []) && CountIn([], from, until) == 0
  {
  }

  lemma CountSnoc(ts: seq<nat>, t: nat, from: nat, until: nat)
    ensures CountIn(ts + [t], from, until) == CountIn(ts, from, until) + Inside(t, from, until)
  {
    assert (ts + [t])[..|ts|] == ts;
  }

  /** A second event within the window passes. */
  lemma SecondPasses(p: Passing, last: nat, now: nat)
    requires p.entry == Some(DedupEntry(last, 1)) && last <= now < last + DEDUP_WINDOW_NS && now < U64_RANGE
    ensures Next(p, now) == Passing(Some(DedupEntry(last, 2)), p.times + [now], p.opens + [false])
  {
  }

  /** An event after the window opens a new one. */
  lemma OpensWindow(p: Passing, now: nat)
    requires p.entry.Some? && p.entry.value.lastNs + DEDUP_WINDOW_NS <= now < U64_RANGE
    ensures Next(p, now) == Passing(Some(DedupEntry(now, 1)), p.times + [now], p.opens + [true])
  {
  }

  /** With no entry yet, the window reads as opened at clock 0. */
  lemma FirstEvent(now: nat)
    requires now < U64_RANGE
    ensures Next(Passing(None, [], []), now) ==
      Passing(Some(if now < DEDUP_WINDOW_NS then DedupEntry(0, 1) else DedupEntry(now, 1)), [now], [true])
  {
  }

  /**
   Starting cleanly is needed: for every first event strictly between boot and the end of the first
   window there are four events within less than one window that all pass.
   */
  lemma BootBurst(t: nat)
    requires 0 < t < 100_000_000
    ensures var w := 100_000_000;
            PassingOf([t, t, w, w]).times == [t, t, w, w] && CountIn([t, t, w, w], t, t + w) == 4
  {
    var w := DEDUP_WINDOW_NS;
    FourEvents(t, t, w, w, t, t + w);
    hide Next;
    FirstEvent(t);
    var one := Next(Passing(None, [], []), t);
    SecondPasses(one, 0, t);
    OpensWindow(Next(one, t), w);
    SecondPasses(Next(Next(one, t), w), w, w);
  }

  /** Three in one window do occur from a clean start: the end of one window and the start of the next. */
  lemma ThreeCanPass()
    ensures var w := DEDUP_WINDOW_NS;
            var ts := [w, 2 * w - 1, 2 * w, 2 * w];
            NonDecreasing(ts) && StartsClean(ts) && PassingOf(ts).times == ts && CountIn(ts, 2 * w - 1, 3 * w - 1) == 3
  {
    var w := DEDUP_WINDOW_NS;
    FourEvents(w, 2 * w - 1, 2 * w, 2 * w, 2 * w - 1, 3 * w - 1);
    hide Next;
    FirstEvent(w);
    var one := Next(Passing(None, [], []), w);
    SecondPasses(one, w, 2 * w - 1);
    OpensWindow(Next(one, 2 * w - 1), 2 * w);
    SecondPasses(Next(Next(one, 2 * w - 1), 2 * w), 2 * w, 2 * w);
  }

  // ---------- the coarse name filter ----------

  type Byte = b: nat | b < 256

  type Key = k: seq<Byte> | |k| == 8 witness seq(8, _ => 0)
  type Comm = c: seq<Byte> | |c| == 16 witness seq(16, _ => 0)

  function Zeros(n: nat): (z: seq<Byte>)
    ensures |z| == n && forall i :: 0 <= i < n ==> z[i] == 0
  {
    seq(n, _ => 0)
  }

  /** The first 8 bytes of a name, padded with zeros. */
  function FirstKey(name: seq<Byte>): Key {
    if |name| >= 8 then name[..8] else name + Zeros(8 - |name|)
  }

  function LastKey(name: seq<Byte>): Key
    requires |name| >= 8
  {
    name[|name| - 8..]
  }

  /** The whitelist keys of one package. */
  function KeysOf(pkg: seq<Byte>): set<Key> {
    if pkg == [] then {} else if |pkg| > 8 then {FirstKey(pkg), LastKey(pkg)} else {FirstKey(pkg)}
  }

  function AllKeys(pkgs: seq<seq<Byte>>): set<Key> {
    if pkgs == [] then {} else AllKeys(pkgs[..|pkgs| - 1]) + KeysOf(pkgs[|pkgs| - 1])
  }

  function Elements(keys: seq<Key>): set<Key> { set k | k in keys }

  /** Each key once. */
  function Deduplicated(keys: seq<Key>): (d: seq<Key>)
    ensures Distinct(d) && |d| <= |keys| && forall k :: k in d <==> k in keys
  {
    if keys == [] then []
    else
      assert keys == keys[..|keys| - 1] + [keys[|keys| - 1]];
      var before, last := Deduplicated(keys[..|keys| - 1]), keys[|keys| - 1];
      if last in before then before else before + [last]
  }

  method TargetEntries(pkgs: seq<seq<Byte>>) returns (entries: seq<Key>)
    ensures Elements(entries) == AllKeys(pkgs)
    ensures Distinct(entries)
    ensures |entries| <= 2 * |pkgs|
  {
    var pushed: seq<Key> := [];
    for i := 0 to |pkgs|
      invariant Elements(pushed) == AllKeys(pkgs[..i])
      invariant |pushed| <= 2 * i
    {
      assert pkgs[..i + 1][..i] == pkgs[..i];
      var bytes := pkgs[i];
      if bytes == [] {
        continue;
      }
      ghost var before := pushed;
      pushed := pushed + [FirstKey(bytes)];
      assert Elements(pushed) == Elements(before) + {FirstKey(bytes)};
      if |bytes| > 8 {
        ghost var one := pushed;
        pushed := pushed + [LastKey(bytes)];
        assert Elements(pushed) == Elements(one) + {LastKey(bytes)};
      }
    }
    assert pkgs[..|pkgs|] == pkgs;
    entries := Deduplicated(pushed);
  }

  /** The loop over the nine windows of the thread name. */
  method CommMatches(comm: Comm, keys: set<Key>) returns (r: bool)
    ensures r <==> Hit(comm, keys)
  {
    var pos := 0;
    while pos <= 8
      invariant 0 <= pos <= 9
      invariant forall p :: 0 <= p < pos ==> Window(comm, p) !in keys
    {
      if Window(comm, pos) in keys {
        return true;
      }
      pos := pos + 1;
    }
    return false;
  }

  function Window(comm: Comm, pos: nat): Key
    requires pos <= 8
  {
    comm[pos..pos + 8]
  }

  predicate Hit(comm: Comm, keys: set<Key>) { exists pos :: 0 <= pos <= 8 && Window(comm, pos) in keys }

  lemma {:induction false} KeyOrigin(pkgs: seq<seq<Byte>>, key: Key)
    ensures key in AllKeys(pkgs) <==> exists i :: 0 <= i < |pkgs| && key in KeysOf(pkgs[i])
  {
    if pkgs != [] {
      var n := |pkgs| - 1;
      KeyOrigin(pkgs[..n], key);
      assert forall i :: 0 <= i < n ==> pkgs[..n][i] == pkgs[i];
    }
  }

  /** A name passes exactly when some package's first or last key occurs in it. */
  lemma {:induction false} HitMeaning(comm: Comm, pkgs: seq<seq<Byte>>)
    ensures Hit(comm, AllKeys(pkgs)) <==>
      exists pos, i :: 0 <= pos <= 8 && 0 <= i < |pkgs| && Window(comm, pos) in KeysOf(pkgs[i])
  {
    forall pos | 0 <= pos <= 8 { KeyOrigin(pkgs, Window(comm, pos)); }
  }

  /** What the kernel keeps of a name: 15 bytes and a zero, from the front or from the back. */
  function Front(name: seq<Byte>): Comm {
    if |name| >= 15 then name[..15] + [0] else name + Zeros(16 - |name|)
  }

  function Back(name: seq<Byte>): Comm {
    if |name| >= 15 then name[|name| - 15..] + [0] else name + Zeros(16 - |name|)
  }

  /** No configured package is missed, whichever end of its name the kernel kept. */
  lemma {:induction false} NoFalseNegatives(pkgs: seq<seq<Byte>>, i: nat)
    requires i < |pkgs| && pkgs[i] != []
    ensures Hit(Front(pkgs[i]), AllKeys(pkgs)) && Hit(Back(pkgs[i]), AllKeys(pkgs))
  {
    var name := pkgs[i];
    assert Window(Front(name), 0) == FirstKey(name);
    KeyOrigin(pkgs, FirstKey(name));
    if |name| >= 15 {
      assert Window(Back(name), 7) == LastKey(name);
      KeyOrigin(pkgs, LastKey(name));
    }
  }

  // ---------- room for the keys ----------

  function PowerFrom(p: nat, n: nat): (r: nat)
    requires p > 0
    ensures r >= n && r >= p
    decreases n - p
  {
    if p >= n then p else PowerFrom(2 * p, n)
  }

  /** Entries the kernel map is loaded with: the next power of two of twice the packages, at least 64. */
  function Capacity(pkgs: nat): nat {
    var p := PowerFrom(1, 2 * pkgs);
    if p < 64 then 64 else p
  }

  function PowerOfTwo(k: nat): (p: nat)
    ensures p > 0
  {
    if k == 0 then 1 else 2 * PowerOfTwo(k - 1)
  }

  lemma {:induction false} PowerFromMeaning(k: nat, n: nat) returns (m: nat)
    ensures m >= k && PowerFrom(PowerOfTwo(k), n) == PowerOfTwo(m) && (m > k ==> PowerOfTwo(m - 1) < n)
    decreases n - PowerOfTwo(k)
  {
    m := k;
    if PowerOfTwo(k) < n {
      m := PowerFromMeaning(k + 1, n);
    }
  }

  /** The capacity is the least power of two that is at least 64 and at least two keys a package. */
  lemma CapacityMeaning(pkgs: nat) returns (m: nat)
    ensures Capacity(pkgs) == PowerOfTwo(m) >= 64 && Capacity(pkgs) >= 2 * pkgs
    ensures m > 6 ==> PowerOfTwo(m - 1) < 2 * pkgs
  {
    m := PowerFromMeaning(0, 2 * pkgs);
    assert PowerOfTwo(6) == 64;
    if PowerOfTwo(m) < 64 {
      m := 6;
    } else if m > 6 {
      assert PowerOfTwo(m) >= 64;
    } else {
      Monotone(m, 6);
      assert PowerOfTwo(m) == 64;
      m := 6;
    }
  }

  lemma {:induction false} Monotone(i: nat, k: nat)
    requires i <= k
    ensures 0 < PowerOfTwo(i) <= PowerOfTwo(k)
  {
    if i < k {
      Monotone(i, k - 1);
    } else if i > 0 {
      Monotone(i - 1, i - 1);
    }
  }

  lemma {:induction false} AllKeysCount(pkgs: seq<seq<Byte>>)
    ensures |AllKeys(pkgs)| <= 2 * |pkgs|
  {
    if pkgs != [] {
      var n := |pkgs| - 1;
      AllKeysCount(pkgs[..n]);
      assert |KeysOf(pkgs[n])| <= 2;
      UnionSize(AllKeys(pkgs[..n]), KeysOf(pkgs[n]));
    }
  }

  lemma UnionSize(a: set<Key>, b: set<Key>)
    ensures |a + b| <= |a| + |b|
  {
    assert a + b == a + (b - a);
    assert |b - a| <= |b| by {
      assert b == (b - a) + (b * a);
    }
  }

  /** Every key fits into the map the program was loaded with. */
  lemma {:induction false} KeysFit(pkgs: seq<seq<Byte>>)
    ensures |AllKeys(pkgs)| <= Capacity(|pkgs|)
  {
    AllKeysCount(pkgs);
  }

  /** Rebuilding the whitelist after a reload: the old keys go, and a full map takes no new one. */
  method UpdateWhitelist(stale: set<Key>, capacity: nat, pkgs: seq<seq<Byte>>) returns (keys: set<Key>)
    ensures keys <= AllKeys(pkgs) && |keys| <= capacity
    ensures keys == AllKeys(pkgs) <==> |AllKeys(pkgs)| <= capacity
  {
    keys := stale;
    while keys != {}
    {
      var k :| k in keys;
      keys := keys - {k};
    }
    var entries := TargetEntries(pkgs);
    for i := 0 to |entries|
      invariant keys <= Elements(entries[..i]) && |keys| <= capacity
      invariant i <= capacity ==> keys == Elements(entries[..i])
    {
      assert entries[..i + 1] == entries[..i] + [entries[i]];
      assert Elements(entries[..i + 1]) == Elements(entries[..i]) + {entries[i]};
      DistinctSize(entries, i);
      if |keys| < capacity {
        keys := keys + {entries[i]};
      }
    }
    assert entries[..|entries|] == entries;
    DistinctSize(entries, |entries|);
  }

  lemma {:induction false} DistinctSize(entries: seq<Key>, n: nat)
    requires Distinct(entries) && n <= |entries|
    ensures |Elements(entries[..n])| == n
    ensures n < |entries| ==> entries[n] !in Elements(entries[..n])
  {
    if n > 0 {
      DistinctSize(entries, n - 1);
      assert Elements(entries[..n]) == Elements(entries[..n - 1]) + {entries[n - 1]};
    }
  }

  /** The map keeps the size it was loaded with, so after a reload all keys fit exactly if that size allows. */
  lemma {:induction false} ReloadFits(loaded: seq<seq<Byte>>, reloaded: seq<seq<Byte>>)
    ensures |reloaded| <= |loaded| || |reloaded| <= 32 ==> |AllKeys(reloaded)| <= Capacity(|loaded|)
  {
    AllKeysCount(reloaded);
  }

  /** Packages of 16 bytes that share no key. */
  function Numbered(i: nat): seq<Byte>
    requires i < 100
  {
    [1 + i] + seq(14, _ => 0xff) + [101 + i]
  }

  function Many(n: nat): seq<seq<Byte>>
    requires n <= 100
  {
    seq(n, i requires 0 <= i < n => Numbered(i))
  }

  lemma NumberedKeys(i: nat)
    requires i < 100
    ensures var first, tail := FirstKey(Numbered(i)), LastKey(Numbered(i));
            && KeysOf(Numbered(i)) == {first} + {tail}
            && first[0] == 1 + i && first[7] == 0xff && tail[0] == 0xff && tail[7] == 101 + i
  {
  }

  lemma {:induction false} ManyKeys(n: nat)
    requires n <= 100
    ensures |AllKeys(Many(n))| == 2 * n
    ensures forall k :: k in AllKeys(Many(n)) ==>
      (1 <= k[0] <= n && k[7] == 0xff) || (k[0] == 0xff && 101 <= k[7] <= 100 + n)
  {
    if n > 0 {
      var before, last := Many(n - 1), Numbered(n - 1);
      ManyKeys(n - 1);
      NumberedKeys(n - 1);
      assert Many(n)[..n - 1] == before && Many(n)[n - 1] == last;
      assert AllKeys(Many(n)) == AllKeys(before) + {FirstKey(last)} + {LastKey(last)};
      hide *;
      assert FirstKey(last) !in AllKeys(before) && LastKey(last) !in AllKeys(before) + {FirstKey(last)};
      assert |AllKeys(Many(n))| == |AllKeys(before)| + 2;
    }
  }

  /** Loaded with one package, the map has 64 places; a reload with 33 packages that share no key needs 66. */
  lemma ReloadOverflows()
    ensures Capacity(1) == 64 && |AllKeys(Many(33))| == 66
  {
    ManyKeys(33);
    assert PowerFrom(1, 2) == 2;
  }

  // ---------- wildcard packages ----------

  /** A byte that is not zero and occurs in no configured text. */
  predicate Fresh(z: Byte, pkgs: seq<seq<Byte>>) { z != 0 && forall i :: 0 <= i < |pkgs| ==> z !in pkgs[i] }

  function Copies(z: Byte, n: nat): (s: seq<Byte>)
    ensures |s| == n && forall i :: 0 <= i < n ==> s[i] == z
  {
    seq(n, _ => z)
  }

  lemma {:induction false} FreshInNoKey(z: Byte, pkgs: seq<seq<Byte>>, key: Key)
    requires Fresh(z, pkgs) && z in key
    ensures key !in AllKeys(pkgs)
  {
    KeyOrigin(pkgs, key);
  }

  /** A name all of whose windows hold a fresh byte is missed. */
  lemma {:induction false} FreshMissed(z: Byte, pkgs: seq<seq<Byte>>, comm: Comm)
    requires Fresh(z, pkgs) && forall pos :: 0 <= pos <= 8 ==> z in Window(comm, pos)
    ensures !Hit(comm, AllKeys(pkgs))
  {
    forall pos | 0 <= pos <= 8 ensures Window(comm, pos) !in AllKeys(pkgs) {
      FreshInNoKey(z, pkgs, Window(comm, pos));
    }
  }

  lemma {:induction false} BytesUpTo(n: nat) returns (s: set<Byte>)
    requires n < 256
    ensures |s| == n && forall b: Byte :: b in s <==> 1 <= b <= n
  {
    if n == 0 {
      s := {};
    } else {
      s := BytesUpTo(n - 1);
      var b: Byte := n;
      s := s + {b};
    }
  }

  lemma {:induction false} BytesOf(t: seq<Byte>) returns (s: set<Byte>)
    ensures |s| <= |t| && forall b :: b in s <==> b in t
  {
    if t == [] {
      s := {};
    } else {
      s := BytesOf(t[1..]);
      assert forall b :: b in t <==> b == t[0] || b in t[1..];
      s := s + {t[0]};
    }
  }

  /** A short text leaves some byte unused. */
  lemma SomeFresh(t: seq<Byte>) returns (z: Byte)
    requires |t| < 255
    ensures Fresh(z, [t])
  {
    var all := BytesUpTo(255);
    var used := BytesOf(t);
    if all <= used {
      Subset(all, used);
      assert false;
    }
    z :| z in all && z !in used;
  }

  lemma Subset(a: set<Byte>, b: set<Byte>)
    requires a <= b
    ensures |a| <= |b|
  {
    assert b == a + (b - a);
  }

  /** The front of every name that begins with eight configured bytes is let through. */
  lemma {:induction false} LongPrefixPasses(pkgs: seq<seq<Byte>>, i: nat, prefix: seq<Byte>, name: seq<Byte>)
    requires i < |pkgs| && prefix <= pkgs[i] && prefix <= name && |prefix| >= 8
    ensures Hit(Front(name), AllKeys(pkgs))
  {
    assert pkgs[i][..8] == prefix[..8] == name[..8];
    assert Window(Front(name), 0) == FirstKey(pkgs[i]);
    KeyOrigin(pkgs, FirstKey(pkgs[i]));
  }

  /** A short prefix followed by fresh bytes is missed at the front; any prefix is missed at the back. */
  lemma {:induction false} FreshNameMissed(z: Byte, pkgs: seq<seq<Byte>>, prefix: seq<Byte>, suffix: seq<Byte>)
    requires Fresh(z, pkgs)
    ensures |prefix| < 8 ==> !Hit(Front(prefix + Copies(z, 15) + suffix), AllKeys(pkgs))
    ensures |suffix| < 7 ==> !Hit(Back(prefix + Copies(z, 15) + suffix), AllKeys(pkgs))
  {
    var name := prefix + Copies(z, 15) + suffix;
    if |prefix| < 8 {
      forall pos | 0 <= pos <= 8 ensures z in Window(Front(name), pos) {
        var j := if pos < |prefix| then |prefix| - pos else 0;
        assert Window(Front(name), pos)[j] == name[pos + j] == z;
      }
      FreshMissed(z, pkgs, Front(name));
    }
    if |suffix| < 7 {
      forall pos | 0 <= pos <= 8 ensures z in Window(Back(name), pos) {
        assert Window(Back(name), pos)[0] == name[|name| - 15 + pos] == z;
      }
      FreshMissed(z, pkgs, Back(name));
    }
  }

  /**
   Names cut to their first bytes: those that begin with the text before the first wildcard are all let
   through exactly if this text has at least 8 bytes. This holds among all names below any length
   bound above 22; package names are matched only below 128 bytes.
   */
  lemma {:induction false} FrontExact(pkgs: seq<seq<Byte>>, i: nat, prefix: seq<Byte>, z: Byte, bound: nat)
    requires i < |pkgs| && prefix <= pkgs[i] && Fresh(z, pkgs) && bound > 22
    ensures (forall name :: prefix <= name && |name| < bound ==> Hit(Front(name), AllKeys(pkgs))) <==> |prefix| >= 8
  {
    hide Hit, Front, AllKeys;
    if |prefix| >= 8 {
      forall name | prefix <= name && |name| < bound ensures Hit(Front(name), AllKeys(pkgs)) {
        LongPrefixPasses(pkgs, i, prefix, name);
      }
    } else {
      FreshNameMissed(z, pkgs, prefix, []);
      var name := prefix + Copies(z, 15) + [];
      assert prefix <= name && |name| < bound && !Hit(Front(name), AllKeys(pkgs));
    }
  }

  /** Names cut to their last bytes: whatever the text before the first wildcard, some name is missed. */
  lemma BackMissed(pkgs: seq<seq<Byte>>, prefix: seq<Byte>, z: Byte)
    requires Fresh(z, pkgs)
    ensures exists name :: prefix <= name && |name| == |prefix| + 15 && !Hit(Back(name), AllKeys(pkgs))
  {
    FreshNameMissed(z, pkgs, prefix, []);
    var name := prefix + Copies(z, 15) + [];
    assert prefix <= name && |name| == |prefix| + 15;
  }

  /** One configured text alone always leaves a byte unused. */
  lemma OneTextExact(t: seq<Byte>, prefix: seq<Byte>)
    requires |t| < 128 && prefix <= t
    ensures (forall name :: prefix <= name && |name| < 128 ==> Hit(Front(name), AllKeys([t]))) <==> |prefix| >= 8
    ensures exists name :: prefix <= name && |name| == |prefix| + 15 && !Hit(Back(name), AllKeys([t]))
  {
    var z := SomeFresh(t);
    FrontExact([t], 0, prefix, z, 128);
    BackMissed([t], prefix, z);
  }

  // ---------- patterns with one star ----------

  const STAR: Byte := 42

  /** The names that the pattern with a single star between two literal texts matches. */
  predicate StarMatches(prefix: seq<Byte>, suffix: seq<Byte>, name: seq<Byte>) {
    |name| >= |prefix| + |suffix| && prefix <= name && name[|name| - |suffix|..] == suffix
  }

  /**
   Of a pattern with one star, all matched names are let through if cut to their first bytes exactly
   if 8 bytes precede the star; and if cut to their last bytes exactly if 8 bytes follow it, or 7 do
   that are with a zero after them a key of some package. This holds among all names below any length
   bound that leaves the star room for 15 bytes.
   */
  lemma {:induction false} StarExact(pkgs: seq<seq<Byte>>, i: nat, prefix: seq<Byte>, suffix: seq<Byte>, z: Byte,
                                     bound: nat)
    requires i < |pkgs| && pkgs[i] == prefix + [STAR] + suffix && Fresh(z, pkgs)
    requires bound > |prefix| + 15 + |suffix|
    ensures (forall name :: |name| < bound && StarMatches(prefix, suffix, name) ==> Hit(Front(name), AllKeys(pkgs)))
      <==> |prefix| >= 8
    ensures (forall name :: |name| < bound && StarMatches(prefix, suffix, name) ==> Hit(Back(name), AllKeys(pkgs))) <==>
      |suffix| >= 8 || (|suffix| == 7 && suffix + [0] in AllKeys(pkgs))
  {
    hide Hit, Front, Back, AllKeys;
    var long := prefix + Copies(z, 15) + suffix;
    assert StarMatches(prefix, suffix, long) && |long| < bound;
    FreshNameMissed(z, pkgs, prefix, suffix);
    if |prefix| >= 8 {
      forall name | StarMatches(prefix, suffix, name) ensures Hit(Front(name), AllKeys(pkgs)) {
        LongPrefixPasses(pkgs, i, prefix, name);
      }
    }
    if |suffix| >= 8 {
      forall name | StarMatches(prefix, suffix, name) ensures Hit(Back(name), AllKeys(pkgs)) {
        LongSuffixPasses(pkgs, i, prefix, suffix, name);
      }
    } else if |suffix| == 7 {
      if suffix + [0] in AllKeys(pkgs) {
        forall name | StarMatches(prefix, suffix, name) ensures Hit(Back(name), AllKeys(pkgs)) {
          SevenPasses(pkgs, prefix, suffix, name);
        }
      } else {
        SevenMissed(z, pkgs, prefix, suffix);
      }
    }
  }

  lemma LongSuffixPasses(pkgs: seq<seq<Byte>>, i: nat, prefix: seq<Byte>, suffix: seq<Byte>, name: seq<Byte>)
    requires i < |pkgs| && pkgs[i] == prefix + [STAR] + suffix && |suffix| >= 8 && StarMatches(prefix, suffix, name)
    ensures Hit(Back(name), AllKeys(pkgs))
  {
    var key := suffix[|suffix| - 8..];
    assert LastKey(pkgs[i]) == key;
    KeyOrigin(pkgs, key);
    assert name[|name| - 8..] == key;
    var pos := if |name| >= 15 then 7 else |name| - 8;
    assert Window(Back(name), pos) == key;
  }

  /** The last seven bytes of a name stand in its back, before a zero. */
  lemma EndOfBack(name: seq<Byte>)
    requires |name| >= 7
    ensures var pos := if |name| >= 15 then 8 else |name| - 7;
            Window(Back(name), pos) == name[|name| - 7..] + [0]
  {
    if |name| < 15 {
      var zeros := Zeros(16 - |name|);
      assert (name + zeros)[|name| - 7..|name| + 1] == name[|name| - 7..] + zeros[..1];
      assert zeros[..1] == [0];
    }
  }

  lemma SevenPasses(pkgs: seq<seq<Byte>>, prefix: seq<Byte>, suffix: seq<Byte>, name: seq<Byte>)
    requires |suffix| == 7 && suffix + [0] in AllKeys(pkgs) && StarMatches(prefix, suffix, name)
    ensures Hit(Back(name), AllKeys(pkgs))
  {
    hide AllKeys, Back;
    EndOfBack(name);
  }

  lemma SevenMissed(z: Byte, pkgs: seq<seq<Byte>>, prefix: seq<Byte>, suffix: seq<Byte>)
    requires Fresh(z, pkgs) && |suffix| == 7 && suffix + [0] !in AllKeys(pkgs)
    ensures !Hit(Back(prefix + Copies(z, 15) + suffix), AllKeys(pkgs))
  {
    var name := prefix + Copies(z, 15) + suffix;
    forall pos | 0 <= pos <= 8 ensures Window(Back(name), pos) !in AllKeys(pkgs) {
      if pos == 8 {
        assert Window(Back(name), 8) == suffix + [0];
      } else {
        assert Window(Back(name), pos)[0] == name[|name| - 15 + pos] == z;
        FreshInNoKey(z, pkgs, Window(Back(name), pos));
      }
    }
  }

  // ---------- two inputs ----------

  function Ascii(s: string): seq<Byte> {
    seq(|s|, i requires 0 <= i < |s| => if s[i] < 128 as char then s[i] as nat else 0)
  }

  /**
   A wildcard package contributes keys of its pattern text, not of the names it matches: of
   com.tencent.mobileqq the kernel may keep encent.mobileqq, which passes no key of com.tencent.*.
   */
  lemma WildcardMissed()
    ensures !Hit(Back(Ascii("com.tencent.mobileqq")), AllKeys([Ascii("com.tencent.*")]))
    ensures Hit(Front(Ascii("com.tencent.mobileqq")), AllKeys([Ascii("com.tencent.*")]))
  {
    var name, pattern := Ascii("com.tencent.mobileqq"), Ascii("com.tencent.*");
    assert |name| == 20 && |pattern| == 13;
    assert AllKeys([pattern]) == KeysOf(pattern) by {
      var one: seq<seq<Byte>> := [pattern];
      assert one[..0] == [];
    }
    var back := Back(name);
    assert back[0] == 'e' as nat && back[1] == 'n' as nat && back[2] == 'c' as nat && back[3] == 'e' as nat;
    assert back[4] == 'n' as nat && back[5] == 't' as nat && back[6] == '.' as nat && back[7] == 'm' as nat &&
      back[8] == 'o' as nat;
    assert FirstKey(pattern)[0] == 'c' as nat && FirstKey(pattern)[1] == 'o' as nat;
    assert LastKey(pattern)[0] == 'e' as nat && LastKey(pattern)[1] == 'n' as nat &&
      LastKey(pattern)[2] == 'c' as nat && LastKey(pattern)[7] == '*' as nat;
    forall pos | 0 <= pos <= 8 ensures Window(back, pos) !in KeysOf(pattern) {
      var w := Window(back, pos);
      assert w[0] == back[pos] && w[1] == back[pos + 1] && w[2] == back[pos + 2] && w[7] == back[pos + 7];
    }
    assert Window(Front(name), 0) == FirstKey(pattern);
  }

  /** With com.* configured, com.example.app passes no key, whichever end the kernel keeps. */
  lemma ShortPrefixMissed()
    ensures !Hit(Front(Ascii("com.example.app")), AllKeys([Ascii("com.*")]))
    ensures !Hit(Back(Ascii("com.example.app")), AllKeys([Ascii("com.*")]))
  {
    var name, pattern := Ascii("com.example.app"), Ascii("com.*");
    assert |name| == 15 && |pattern| == 5 && FirstKey(pattern)[4] == STAR;
    OneShortKey(pattern);
    assert STAR !in name;
    hide Ascii, AllKeys, FirstKey;
    WholeName(name);
    NoStar(name + [0], FirstKey(pattern));
  }

  lemma WholeName(name: seq<Byte>)
    requires |name| == 15
    ensures Front(name) == Back(name) == name + [0]
  {
    assert name[..15] == name && name[0..] == name;
  }

  lemma NoStar(comm: Comm, key: Key)
    requires STAR !in comm && STAR in key
    ensures !Hit(comm, {key})
  {
  }

  lemma OneShortKey(pattern: seq<Byte>)
    requires 0 < |pattern| <= 8
    ensures AllKeys([pattern]) == {FirstKey(pattern)}
  {
    var one: seq<seq<Byte>> := [pattern];
    assert one[..0] == [];
  }
}
