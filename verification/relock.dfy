/** The adaptive relock interval: a sliding window with hysteresis over four intervals. */
module Relock {
  import opened Prelude

  const INTERVALS_SECS: seq<nat> := [3, 10, 60, 300]
  const SAMPLE_INTERVAL_SECS: nat := 2
  const WINDOW_SAMPLES: nat := 15
  const STABLE_SECS_EXTEND: nat := 60
  const TOP: nat := 3

  datatype Controller = Controller(rank: nat, samples: seq<bool>, stableSecs: nat)

  predicate Ok(c: Controller) {
    c.rank <= TOP && |c.samples| <= WINDOW_SAMPLES && c.stableSecs % 2 == 0 && c.stableSecs < STABLE_SECS_EXTEND
  }

  function Count(samples: seq<bool>): (n: nat)
    ensures n <= |samples|
  {
    if samples == [] then 0 else Count(samples[..|samples| - 1]) + if samples[|samples| - 1] then 1 else 0
  }

  function Pushed(samples: seq<bool>, b: bool): seq<bool> {
    var s := samples + [b];
    if |s| > WINDOW_SAMPLES then s[1..] else s
  }

  predicate Majority(ratio: real) { ratio >= 0.5 }

  /** One observation of the covered ratio. */
  function Observed(c: Controller, ratio: real): Controller {
    var samples := Pushed(c.samples, Majority(ratio));
    if |samples| < WINDOW_SAMPLES then c.(samples := samples)
    else if 2 * Count(samples) >= WINDOW_SAMPLES then Controller(if c.rank > 0 then c.rank - 1 else 0, samples, 0)
    else if ratio == 0.0 then
      var stable := c.stableSecs + SAMPLE_INTERVAL_SECS;
      if stable >= STABLE_SECS_EXTEND then Controller(if c.rank < TOP then c.rank + 1 else c.rank, samples, 0)
      else Controller(c.rank, samples, stable)
    else Controller(c.rank, samples, 0)
  }

  /** One observation by the older entry point, which knows only whether the ratio was a majority. */
  function ObservedFlag(c: Controller, covered: bool): Controller {
    var samples := Pushed(c.samples, covered);
    if |samples| < WINDOW_SAMPLES then c.(samples := samples)
    else if 2 * Count(samples) >= WINDOW_SAMPLES then Controller(if c.rank > 0 then c.rank - 1 else 0, samples, 0)
    else if Count(samples) == 0 then
      var stable := c.stableSecs + SAMPLE_INTERVAL_SECS;
      if stable >= STABLE_SECS_EXTEND then Controller(if c.rank < TOP then c.rank + 1 else c.rank, samples, 0)
      else Controller(c.rank, samples, stable)
    else Controller(c.rank, samples, 0)
  }

  lemma HalfOfWindow(covered: nat, n: nat, windowRatio: real)
    requires n > 0 && windowRatio == covered as real / n as real
    ensures windowRatio >= 0.5 <==> 2 * covered >= n
  {
    assert windowRatio * n as real == covered as real;
    if windowRatio >= 0.5 {
      assert windowRatio * n as real >= 0.5 * n as real;
    } else {
      assert windowRatio * n as real < 0.5 * n as real;
    }
  }

  class AdaptiveRelock {
    var rank: nat
    var samples: seq<bool>
    var stableSecs: nat

    ghost function State(): Controller
      reads this
    {
      Controller(rank, samples, stableSecs)
    }

    constructor ()
      ensures State() == Controller(2, [], 0) && INTERVALS_SECS[rank] == 60
    {
      rank, samples, stableSecs := 2, [], 0;
    }

    /** The interval nearest to the configured one, the shorter of two equally near. */
    constructor FromInitial(secs: nat)
      requires secs < 0x8000_0000_0000_0000
      ensures rank <= TOP && samples == [] && stableSecs == 0
      ensures forall j :: 0 <= j <= TOP ==> Distance(INTERVALS_SECS[rank], secs) <= Distance(INTERVALS_SECS[j], secs)
      ensures rank == if secs <= 6 then 0 else if secs <= 35 then 1 else if secs <= 180 then 2 else 3
      ensures forall j :: 0 <= j < rank ==> Distance(INTERVALS_SECS[rank], secs) < Distance(INTERVALS_SECS[j], secs)
    {
      samples, stableSecs := [], 0;
      var best := 0;
      for i := 1 to |INTERVALS_SECS|
        invariant 0 <= best < i
        invariant forall j :: 0 <= j < i ==> Distance(INTERVALS_SECS[best], secs) <= Distance(INTERVALS_SECS[j], secs)
        invariant forall j :: 0 <= j < best ==> Distance(INTERVALS_SECS[best], secs) < Distance(INTERVALS_SECS[j], secs)
      {
        if Distance(INTERVALS_SECS[i], secs) < Distance(INTERVALS_SECS[best], secs) {
          best := i;
        }
      }
      Nearest(best, secs);
      rank := best;
    }

    method Observe(covered: bool)
      requires Ok(State())
      modifies this
      ensures Ok(State()) && State() == ObservedFlag(old(State()), covered)
    {
      hide Count;
      samples := samples + [covered];
      if |samples| > WINDOW_SAMPLES {
        samples := samples[1..];
      }
      if |samples| < WINDOW_SAMPLES {
        return;
      }
      var coveredN := CountCovered(samples);
      var ratio := coveredN as real / |samples| as real;
      HalfOfWindow(coveredN, |samples|, ratio);
      if ratio >= 0.5 {
        stableSecs := 0;
        rank := if rank > 0 then rank - 1 else 0;
      } else if coveredN == 0 {
        stableSecs := stableSecs + SAMPLE_INTERVAL_SECS;
        if stableSecs >= STABLE_SECS_EXTEND {
          stableSecs := 0;
          if rank < |INTERVALS_SECS| - 1 {
            rank := rank + 1;
          }
        }
      } else {
        stableSecs := 0;
      }
    }

    method ObserveRatio(ratio: real)
      requires Ok(State())
      modifies this
      ensures Ok(State()) && State() == Observed(old(State()), ratio)
    {
      hide Count;
      var majority := ratio >= 0.5;
      samples := samples + [majority];
      if |samples| > WINDOW_SAMPLES {
        samples := samples[1..];
      }
      if |samples| < WINDOW_SAMPLES {
        return;
      }
      var coveredN := CountCovered(samples);
      var windowRatio := coveredN as real / |samples| as real;
      HalfOfWindow(coveredN, |samples|, windowRatio);
      if windowRatio >= 0.5 {
        stableSecs := 0;
        rank := if rank > 0 then rank - 1 else 0;
      } else if ratio == 0.0 {
        stableSecs := stableSecs + SAMPLE_INTERVAL_SECS;
        if stableSecs >= STABLE_SECS_EXTEND {
          stableSecs := 0;
          if rank < |INTERVALS_SECS| - 1 {
            rank := rank + 1;
          }
        }
      } else {
        stableSecs := 0;
      }
    }
  }

  lemma Nearest(best: nat, secs: nat)
    requires best <= TOP
    requires forall j :: 0 <= j <= TOP ==> Distance(INTERVALS_SECS[best], secs) <= Distance(INTERVALS_SECS[j], secs)
    requires forall j :: 0 <= j < best ==> Distance(INTERVALS_SECS[best], secs) < Distance(INTERVALS_SECS[j], secs)
    ensures best == if secs <= 6 then 0 else if secs <= 35 then 1 else if secs <= 180 then 2 else 3
  {
    var right := if secs <= 6 then 0 else if secs <= 35 then 1 else if secs <= 180 then 2 else 3;
    assert Distance(INTERVALS_SECS[best], secs) <= Distance(INTERVALS_SECS[right], secs);
    if right < best {
      assert Distance(INTERVALS_SECS[best], secs) < Distance(INTERVALS_SECS[right], secs);
    }
  }

  function Distance(v: nat, secs: nat): nat { if v >= secs then v - secs else secs - v }

  method CountCovered(samples: seq<bool>) returns (n: nat)
    ensures n == Count(samples)
  {
    n := 0;
    for i := 0 to |samples|
      invariant n == Count(samples[..i])
    {
      assert samples[..i + 1][..i] == samples[..i];
      if samples[i] {
        n := n + 1;
      }
    }
    assert samples[..|samples|] == samples;
  }

  // ---------- runs ----------

  function IntervalSecs(c: Controller): Option<nat> {
    if c.rank < |INTERVALS_SECS| then Some(INTERVALS_SECS[c.rank]) else None
  }

  function Run(c: Controller, ratios: seq<real>): Controller {
    if ratios == [] then c else Observed(Run(c, ratios[..|ratios| - 1]), ratios[|ratios| - 1])
  }

  lemma {:induction false} RunOk(c: Controller, ratios: seq<real>)
    requires Ok(c)
    ensures Ok(Run(c, ratios))
  {
    if ratios != [] {
      RunOk(c, ratios[..|ratios| - 1]);
    }
  }

  /** How often the interval gets longer along a run. */
  function Lengthened(c: Controller, ratios: seq<real>): nat {
    if ratios == [] then 0
    else
      var before := ratios[..|ratios| - 1];
      Lengthened(c, before) + if Run(c, ratios).rank > Run(c, before).rank then 1 else 0
  }

  function Shortened(c: Controller, ratios: seq<real>): nat {
    if ratios == [] then 0
    else
      var before := ratios[..|ratios| - 1];
      Shortened(c, before) + if Run(c, ratios).rank < Run(c, before).rank then 1 else 0
  }

  /** Each lengthening is paid for by 30 calls; each shortening undoes a lengthening or uses up a starting rank. */
  lemma {:induction false} Budget(c: Controller, ratios: seq<real>)
    requires Ok(c)
    ensures 30 * Lengthened(c, ratios) + Run(c, ratios).stableSecs / 2 <= |ratios| + c.stableSecs / 2
    ensures Shortened(c, ratios) + Run(c, ratios).rank == c.rank + Lengthened(c, ratios)
  {
    hide Pushed, Count;
    if ratios != [] {
      Budget(c, ratios[..|ratios| - 1]);
      RunOk(c, ratios[..|ratios| - 1]);
    }
  }

  /** No oscillation: in n calls at most n/30 lengthenings and n/30 + 3 shortenings. */
  lemma {:induction false} NoOscillation(c: Controller, ratios: seq<real>)
    requires Ok(c) && c.stableSecs == 0
    ensures Lengthened(c, ratios) <= |ratios| / 30
    ensures Shortened(c, ratios) <= |ratios| / 30 + 3
  {
    Budget(c, ratios);
  }

  lemma StableStep(c: Controller, ratio: real)
    requires Ok(c) && (c.stableSecs > 0 ==> |c.samples| == WINDOW_SAMPLES)
    ensures var d := Observed(c, ratio);
            d.stableSecs > 0 ==>
              d.rank == c.rank && ratio == 0.0 && d.stableSecs == c.stableSecs + 2 && |d.samples| == WINDOW_SAMPLES
  {
  }

  /** The stable time counts the last calls: all of them with ratio 0, none with a change of rank. */
  lemma {:induction false} StableMeaning(c: Controller, ratios: seq<real>)
    requires Ok(c) && c.stableSecs == 0
    ensures var n, d := |ratios|, Run(c, ratios);
            && (d.stableSecs > 0 ==> |d.samples| == WINDOW_SAMPLES)
            && d.stableSecs / 2 <= n
            && (forall j :: n - d.stableSecs / 2 <= j < n ==> ratios[j] == 0.0)
            && (forall j :: n - d.stableSecs / 2 <= j <= n ==> Run(c, ratios[..j]).rank == d.rank)
  {
    hide Observed;
    var n := |ratios|;
    assert ratios[..n] == ratios;
    if ratios != [] {
      var before := ratios[..n - 1];
      StableMeaning(c, before);
      RunOk(c, before);
      RunOk(c, ratios);
      var d := Run(c, ratios);
      StableStep(Run(c, before), ratios[n - 1]);
      if d.stableSecs > 0 {
        forall j | n - d.stableSecs / 2 <= j < n ensures Run(c, ratios[..j]).rank == d.rank && ratios[j] == 0.0 {
          assert before[..j] == ratios[..j];
          assert j < n - 1 ==> ratios[j] == before[j];
        }
      }
    }
  }

  /**
   A call that lengthens the interval closes 30 consecutive calls with ratio exactly 0, and the rank
   did not change in the 29 calls before it.
   */
  lemma {:induction false} LengtheningIsEarned(c: Controller, ratios: seq<real>, ratio: real)
    requires Ok(c) && c.stableSecs == 0
    requires Observed(Run(c, ratios), ratio).rank > Run(c, ratios).rank
    ensures |ratios| >= 29 && ratio == 0.0
    ensures forall j :: |ratios| - 29 <= j < |ratios| ==> ratios[j] == 0.0
    ensures forall j :: |ratios| - 29 <= j <= |ratios| ==> Run(c, ratios[..j]).rank == Run(c, ratios).rank
  {
    StableMeaning(c, ratios);
    RunOk(c, ratios);
  }

  function Flags(ratios: seq<real>): (flags: seq<bool>)
    ensures |flags| == |ratios| && forall i :: 0 <= i < |ratios| ==> flags[i] == Majority(ratios[i])
  {
    seq(|ratios|, i requires 0 <= i < |ratios| => Majority(ratios[i]))
  }

  function LastOf<T>(xs: seq<T>, n: nat): seq<T> { if |xs| <= n then xs else xs[|xs| - n..] }

  lemma PushedLast(flags: seq<bool>, b: bool)
    ensures Pushed(LastOf(flags, WINDOW_SAMPLES), b) == LastOf(flags + [b], WINDOW_SAMPLES)
  {
  }

  lemma ObservedSamples(c: Controller, ratio: real)
    ensures Observed(c, ratio).samples == Pushed(c.samples, Majority(ratio))
  {
  }

  lemma FlagsSnoc(ratios: seq<real>, ratio: real)
    ensures Flags(ratios + [ratio]) == Flags(ratios) + [Majority(ratio)]
  {
  }

  lemma RunSnoc(c: Controller, ratios: seq<real>, ratio: real)
    ensures Run(c, ratios + [ratio]) == Observed(Run(c, ratios), ratio)
    ensures Run(c, ratios + [ratio]).samples == Pushed(Run(c, ratios).samples, Majority(ratio))
  {
    assert (ratios + [ratio])[..|ratios|] == ratios;
    ObservedSamples(Run(c, ratios), ratio);
  }

  /** The window holds the last 15 samples. */
  lemma {:induction false} WindowIsLast(c: Controller, ratios: seq<real>)
    requires c.samples == []
    ensures Run(c, ratios).samples == LastOf(Flags(ratios), WINDOW_SAMPLES)
  {
    if ratios == [] {
      assert Flags(ratios) == [];
    } else {
      var before, ratio := ratios[..|ratios| - 1], ratios[|ratios| - 1];
      assert ratios == before + [ratio];
      WindowIsLast(c, before);
      hide *;
      RunSnoc(c, before, ratio);
      FlagsSnoc(before, ratio);
      PushedLast(Flags(before), Majority(ratio));
    }
  }

  /** A call that shortens the interval has at least 8 of the last 15 samples at ratio one half or more. */
  lemma {:induction false} ShorteningIsEarned(c: Controller, ratios: seq<real>, ratio: real)
    requires Ok(c) && c.samples == []
    requires Observed(Run(c, ratios), ratio).rank < Run(c, ratios).rank
    ensures |ratios| >= 14 && Count(LastOf(Flags(ratios + [ratio]), WINDOW_SAMPLES)) >= 8
  {
    var all := ratios + [ratio];
    assert all[..|ratios|] == ratios;
    WindowIsLast(c, all);
    WindowIsLast(c, ratios);
    RunOk(c, ratios);
  }

  // ---------- convergence ----------

  lemma {:induction false} CountAll(samples: seq<bool>, b: bool)
    requires forall i :: 0 <= i < |samples| ==> samples[i] == b
    ensures Count(samples) == if b then |samples| else 0
  {
    if samples != [] {
      CountAll(samples[..|samples| - 1], b);
    }
  }

  function Min(a: int, b: int): int { if a < b then a else b }

  /** After j calls of one kind the window ends in min(j, 15) samples of that kind. */
  predicate Settled(samples: seq<bool>, j: nat, b: bool) {
    var k := Min(j, WINDOW_SAMPLES);
    |samples| <= WINDOW_SAMPLES && |samples| >= k && forall i :: |samples| - k <= i < |samples| ==> samples[i] == b
  }

  lemma PushSettles(samples: seq<bool>, j: nat, b: bool)
    requires Settled(samples, j, b)
    ensures Settled(Pushed(samples, b), j + 1, b)
    ensures j >= 14 ==> |Pushed(samples, b)| == 15 && Count(Pushed(samples, b)) == if b then 15 else 0
    ensures |samples| == j < 14 ==> |Pushed(samples, b)| == j + 1
  {
    if j >= 14 {
      CountAll(Pushed(samples, b), b);
    }
  }

  lemma {:induction false} MajorityRun(c: Controller, ratios: seq<real>)
    requires Ok(c) && forall i :: 0 <= i < |ratios| ==> Majority(ratios[i])
    ensures Settled(Run(c, ratios).samples, |ratios|, true)
    ensures |ratios| >= 14 ==> Run(c, ratios).rank <= Max(0, TOP - (|ratios| - 14))
    ensures c.samples == [] ==> Run(c, ratios).rank == Max(0, c.rank - Max(0, |ratios| - 14))
    ensures c.samples == [] && |ratios| <= 14 ==> |Run(c, ratios).samples| == |ratios|
  {
    hide Pushed, Count, Settled;
    RunOk(c, ratios);
    if ratios == [] {
      NothingSettled(c.samples, true);
    } else {
      var n := |ratios| - 1;
      MajorityRun(c, ratios[..n]);
      RunOk(c, ratios[..n]);
      PushSettles(Run(c, ratios[..n]).samples, n, true);
    }
  }

  lemma NothingSettled(samples: seq<bool>, b: bool)
    requires |samples| <= WINDOW_SAMPLES
    ensures Settled(samples, 0, b)
  {
  }

  function Max(a: int, b: int): int { if a > b then a else b }

  /** From any state, 17 calls in a row with ratio one half or more bring the interval to 3 s. */
  lemma ConvergesToShortest(c: Controller, ratios: seq<real>)
    requires Ok(c) && |ratios| == 17 && forall i :: 0 <= i < |ratios| ==> Majority(ratios[i])
    ensures IntervalSecs(Run(c, ratios)) == Some(3)
  {
    MajorityRun(c, ratios);
  }

  /** From a new controller at 300 s, n such calls reach 3 s exactly when n is at least 17. */
  lemma {:induction false} ShortestIsExact(c: Controller, ratios: seq<real>)
    requires c == Controller(TOP, [], 0) && forall i :: 0 <= i < |ratios| ==> Majority(ratios[i])
    ensures Run(c, ratios).rank == 0 <==> |ratios| >= 17
  {
    MajorityRun(c, ratios);
  }

  function Progress(c: Controller): nat { 30 * c.rank + c.stableSecs / 2 }

  lemma QuietStep(c: Controller)
    requires Ok(c) && |Pushed(c.samples, false)| == 15 && Count(Pushed(c.samples, false)) == 0
    ensures var d := Observed(c, 0.0);
            if c.rank < TOP then Progress(d) == Progress(c) + 1 else d.rank == TOP
  {
  }

  lemma {:induction false} QuietRun(c: Controller, ratios: seq<real>)
    requires Ok(c) && forall i :: 0 <= i < |ratios| ==> ratios[i] == 0.0
    ensures Settled(Run(c, ratios).samples, |ratios|, false)
    ensures Run(c, ratios).rank == TOP || Progress(Run(c, ratios)) >= |ratios| - 14
    ensures c.samples == [] && c.stableSecs == 0 && Run(c, ratios).rank < TOP ==>
      Progress(Run(c, ratios)) == 30 * c.rank + Max(0, |ratios| - 14)
    ensures c.samples == [] && c.rank == 0 && c.stableSecs == 0 && Run(c, ratios).rank == TOP ==> |ratios| >= 104
    ensures c.samples == [] && |ratios| <= 14 ==>
      |Run(c, ratios).samples| == |ratios| && Run(c, ratios).rank == c.rank && Run(c, ratios).stableSecs == c.stableSecs
  {
    hide Pushed, Count, Settled;
    RunOk(c, ratios);
    if ratios == [] {
      NothingSettled(c.samples, false);
    } else {
      var n := |ratios| - 1;
      QuietRun(c, ratios[..n]);
      RunOk(c, ratios[..n]);
      var d := Run(c, ratios[..n]);
      PushSettles(d.samples, n, false);
      if n >= 14 {
        QuietStep(d);
      }
    }
  }

  /** From any state, 104 calls in a row with ratio 0 bring the interval to 300 s. */
  lemma ConvergesToLongest(c: Controller, ratios: seq<real>)
    requires Ok(c) && |ratios| == 104 && forall i :: 0 <= i < |ratios| ==> ratios[i] == 0.0
    ensures IntervalSecs(Run(c, ratios)) == Some(300)
  {
    QuietRun(c, ratios);
    RunOk(c, ratios);
  }

  /** From a new controller at 3 s, n such calls reach 300 s exactly when n is at least 104. */
  lemma LongestIsExact(c: Controller, ratios: seq<real>)
    requires c == Controller(0, [], 0) && forall i :: 0 <= i < |ratios| ==> ratios[i] == 0.0
    ensures Run(c, ratios).rank == TOP <==> |ratios| >= 104
  {
    QuietRun(c, ratios);
    RunOk(c, ratios);
  }

  // ---------- partial cover ----------

  function FlagRun(c: Controller, flags: seq<bool>): Controller {
    if flags == [] then c else ObservedFlag(FlagRun(c, flags[..|flags| - 1]), flags[|flags| - 1])
  }

  function Zeros(n: nat): (ratios: seq<real>)
    ensures |ratios| == n && forall i :: 0 <= i < n ==> ratios[i] == 0.0
  {
    seq(n, _ => 0.0)
  }

  /**
   Partial cover (every ratio above 0 and below one half) leaves the interval alone when the ratios are
   fed, but drives the older entry point exactly as if nothing had been covered at all.
   */
  lemma {:induction false} PartialCover(c: Controller, ratios: seq<real>)
    requires Ok(c) && c.samples == [] && c.stableSecs == 0
    requires forall i :: 0 <= i < |ratios| ==> 0.0 < ratios[i] < 0.5
    ensures Run(c, ratios).rank == c.rank && Run(c, ratios).stableSecs == 0
    ensures FlagRun(c, Flags(ratios)) == Run(c, Zeros(|ratios|))
  {
    if ratios == [] {
      assert Flags(ratios) == [] && Zeros(0) == [];
    } else {
      var n := |ratios| - 1;
      var before, ratio := ratios[..n], ratios[n];
      assert ratios == before + [ratio] && Zeros(n + 1) == Zeros(n) + [0.0];
      PartialCover(c, before);
      FalseWindow(c, ratios);
      FalseWindow(c, Zeros(n + 1));
      FlagsSnoc(before, ratio);
      FlagRunSnoc(c, Flags(before), Majority(ratio));
      assert !Majority(ratio) && !Majority(0.0);
      hide *;
      RunSnoc(c, before, ratio);
      RunSnoc(c, Zeros(n), 0.0);
      PartialStep(Run(c, before), ratio);
      ZeroStep(Run(c, Zeros(n)));
    }
  }

  lemma FlagRunSnoc(c: Controller, flags: seq<bool>, b: bool)
    ensures FlagRun(c, flags + [b]) == ObservedFlag(FlagRun(c, flags), b)
  {
    assert (flags + [b])[..|flags|] == flags;
  }

  lemma {:induction false} FalseWindow(c: Controller, ratios: seq<real>)
    requires c.samples == [] && forall i :: 0 <= i < |ratios| ==> ratios[i] < 0.5
    ensures Count(Run(c, ratios).samples) == 0
  {
    hide Count, Run;
    WindowIsLast(c, ratios);
    CountAll(Run(c, ratios).samples, false);
  }

  lemma PartialStep(d: Controller, ratio: real)
    requires 0.0 < ratio < 0.5 && d.stableSecs == 0 && Count(Pushed(d.samples, false)) == 0
    ensures Observed(d, ratio).rank == d.rank && Observed(d, ratio).stableSecs == 0
  {
  }

  /**
   The older entry point agrees with feeding ratio 1 for cover, and with ratio 0 for none, unless a full
   window holds some cover, though not on half of it: then it resets the stable time.
   */
  lemma FlagMeaning(c: Controller)
    ensures ObservedFlag(c, true) == Observed(c, 1.0)
    ensures var s := Pushed(c.samples, false);
            ObservedFlag(c, false) ==
              if |s| >= WINDOW_SAMPLES && 0 < 2 * Count(s) < WINDOW_SAMPLES then Controller(c.rank, s, 0)
                else Observed(c, 0.0)
  {
    LastCounts(c.samples);
  }

  lemma LastCounts(samples: seq<bool>)
    ensures Count(Pushed(samples, true)) > 0
  {
  }

  lemma ZeroStep(d: Controller)
    requires Count(Pushed(d.samples, false)) == 0
    ensures ObservedFlag(d, false) == Observed(d, 0.0)
  {
  }
}
