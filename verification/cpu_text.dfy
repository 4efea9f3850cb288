/**
 The text form of a CPU set ("0-3,6-7"): the printer's meaning, the parser's
 meaning, and the round trip between them. Directory names, log lines and mask
 comparisons all go through this text.
 */
module CpuText {
  import opened Prelude

  const CPU_SETSIZE: nat := 1024
  const USIZE_MAX: nat := 0xFFFF_FFFF_FFFF_FFFF

  type CpuSet = s: set<nat> | forall c :: c in s ==> c < CPU_SETSIZE

  // ---------- decimal numbers ----------

  predicate IsDigit(c: char) { '0' <= c <= '9' }

  function DigitChar(d: nat): (c: char)
    requires d < 10
    ensures IsDigit(c) && c as int - '0' as int == d
  {
    '0' + d as char
  }

  function Show(n: nat): (s: string)
    ensures |s| > 0 && forall i :: 0 <= i < |s| ==> IsDigit(s[i])
  {
    if n < 10 then [DigitChar(n)] else Show(n / 10) + [DigitChar(n % 10)]
  }

  predicate AllDigits(s: string) { forall i :: 0 <= i < |s| ==> IsDigit(s[i]) }

  function Value(s: string): nat
    requires AllDigits(s)
  {
    if s == [] then 0 else Value(s[..|s| - 1]) * 10 + (s[|s| - 1] as int - '0' as int)
  }

  /** What parsing a 64-bit unsigned number accepts: an optional '+', then at least one digit, no overflow. */
  function ParseUsize(s: string): Option<nat> {
    var digits := if |s| > 0 && s[0] == '+' then s[1..] else s;
    if digits == [] || !AllDigits(digits) then None
    else if Value(digits) <= USIZE_MAX then Some(Value(digits))
    else None
  }

  lemma {:induction false} ValueOfShow(n: nat)
    ensures Value(Show(n)) == n
  {
    if n < 10 {
      assert Show(n)[..0] == [];
    } else {
      ValueOfShow(n / 10);
      assert Show(n)[..|Show(n)| - 1] == Show(n / 10);
    }
  }

  // ---------- splitting and trimming ----------

  predicate IsSeparator(c: char) { c == ',' || c == ' ' || c == '\t' }

  /** The Unicode White_Space characters, which `trim` removes at both ends. */
  predicate IsWhite(c: char) {
    || '\U{9}' <= c <= '\U{d}' || c == ' ' || c == '\U{85}' || c == '\U{a0}' || c == '\U{1680}'
    || '\U{2000}' <= c <= '\U{200a}' || c == '\U{2028}' || c == '\U{2029}' || c == '\U{202f}'
    || c == '\U{205f}' || c == '\U{3000}'
  }

  function Split(s: string): (parts: seq<string>)
    ensures |parts| >= 1
  {
    if s == [] then [[]]
    else
      var rest := Split(s[1..]);
      if IsSeparator(s[0]) then [[]] + rest else [[s[0]] + rest[0]] + rest[1..]
  }

  function TrimStart(s: string): string {
    if s != [] && IsWhite(s[0]) then TrimStart(s[1..]) else s
  }

  function TrimEnd(s: string): string {
    if s != [] && IsWhite(s[|s| - 1]) then TrimEnd(s[..|s| - 1]) else s
  }

  function Trim(s: string): string { TrimEnd(TrimStart(s)) }

  /** Position of the first '-', or the length if there is none. */
  function FindDash(s: string): (pos: nat)
    ensures pos <= |s| && (pos < |s| ==> s[pos] == '-')
    ensures forall i :: 0 <= i < pos ==> s[i] != '-'
  {
    if s == [] then 0 else if s[0] == '-' then 0 else 1 + FindDash(s[1..])
  }

  // ---------- the parser's meaning ----------

  function NumberOr(s: string, default: nat): nat {
    match ParseUsize(s)
    case Some(v) => v
    case None => default
  }

  /** Bounds named by one non-blank part; None when the part is skipped. */
  function PartBounds(part: string): Option<(nat, nat)> {
    var pos := FindDash(part);
    if pos < |part| then
      var a := NumberOr(part[..pos], USIZE_MAX);
      var b := NumberOr(part[pos + 1..], a);
      if a == USIZE_MAX then None else if a <= b then Some((a, b)) else Some((b, a))
    else
      var v := NumberOr(part, USIZE_MAX);
      if v == USIZE_MAX then None else Some((v, v))
  }

  predicate Within(c: nat, lo: nat, hi: nat) { lo <= c <= hi }

  function Interval(lo: nat, hi: nat): CpuSet {
    set c: nat | c < CPU_SETSIZE && Within(c, lo, hi)
  }

  function PartCpus(raw: string): CpuSet {
    var part := Trim(raw);
    if part == [] then {}
    else
      match PartBounds(part)
      case None => {}
      case Some((lo, hi)) => Interval(lo, hi)
  }

  function PartsCpus(parts: seq<string>): CpuSet {
    if parts == [] then {} else PartsCpus(parts[..|parts| - 1]) + PartCpus(parts[|parts| - 1])
  }

  function Masked(cpus: CpuSet, present: Option<CpuSet>): CpuSet {
    match present
    case None => cpus
    case Some(mask) => cpus * mask
  }

  /** CPUs named by a range text, kept to the present mask when there is one. */
  function Parse(spec: string, present: Option<CpuSet>): CpuSet {
    Masked(PartsCpus(Split(spec)), present)
  }

  // ---------- the printer's meaning ----------

  type Run = r: (nat, nat) | r.0 <= r.1 witness (0, 0)

  /** The maximal runs of consecutive CPUs of `s` below `n`, in increasing order. */
  function Runs(s: set<nat>, n: nat): (runs: seq<Run>)
    ensures forall i :: 0 <= i < |runs| ==> runs[i].1 < n
  {
    if n == 0 then []
    else
      var before := Runs(s, n - 1);
      if n - 1 !in s then before
      else if before != [] && before[|before| - 1].1 + 1 == n - 1 then
        before[..|before| - 1] + [(before[|before| - 1].0, n - 1)]
      else before + [(n - 1, n - 1)]
  }

  function ShowRun(r: Run): string {
    if r.0 == r.1 then Show(r.0) else Show(r.0) + "-" + Show(r.1)
  }

  function ShowRuns(runs: seq<Run>): string {
    if runs == [] then ""
    else if |runs| == 1 then ShowRun(runs[0])
    else ShowRuns(runs[..|runs| - 1]) + "," + ShowRun(runs[|runs| - 1])
  }

  /** The compact range text of a CPU set, which is also its cpuset directory name. */
  function RangeString(s: CpuSet): string { ShowRuns(Runs(s, CPU_SETSIZE)) }

  // ---------- what the runs are ----------

  function RunCpus(r: Run): set<nat> { set c: nat | c <= r.1 && Within(c, r.0, r.1) }

  function RunsCpus(runs: seq<Run>): set<nat> {
    if runs == [] then {} else RunsCpus(runs[..|runs| - 1]) + RunCpus(runs[|runs| - 1])
  }

  /** Increasing, and with at least one CPU missing between neighbours: no run can be extended. */
  predicate Separated(runs: seq<Run>) {
    forall i, j :: 0 <= i < j < |runs| ==> runs[i].1 + 1 < runs[j].0
  }

  lemma RunsCpusSnoc(runs: seq<Run>, r: Run)
    ensures RunsCpus(runs + [r]) == RunsCpus(runs) + RunCpus(r)
  {
    assert (runs + [r])[..|runs|] == runs;
  }

  lemma {:induction false} RunsCpusBelow(runs: seq<Run>, n: nat)
    requires forall i :: 0 <= i < |runs| ==> runs[i].1 < n
    ensures forall c :: c in RunsCpus(runs) ==> c < n
  {
    if runs != [] {
      RunsCpusBelow(runs[..|runs| - 1], n);
    }
  }

  function Below(s: set<nat>, n: nat): set<nat> { set c | c in s && c < n }

  lemma LastGrows(lo: nat, hi: nat)
    requires lo <= hi
    ensures RunCpus((lo, hi + 1)) == RunCpus((lo, hi)) + {hi + 1}
  {
  }

  lemma Single(c: nat)
    ensures RunCpus((c, c)) == {c}
  {
  }

  lemma BelowGrows(s: set<nat>, n: nat)
    requires n > 0
    ensures Below(s, n) == if n - 1 in s then Below(s, n - 1) + {n - 1} else Below(s, n - 1)
  {
  }

  lemma GrowLastRun(runs: seq<Run>, n: nat)
    requires runs != [] && runs[|runs| - 1].1 + 1 == n
    ensures RunsCpus(runs[..|runs| - 1] + [(runs[|runs| - 1].0, n)]) == RunsCpus(runs) + {n}
  {
    var init, last := runs[..|runs| - 1], runs[|runs| - 1];
    RunsCpusSnoc(init, (last.0, n));
    LastGrows(last.0, last.1);
  }

  /** The runs below `n` cover exactly the CPUs below `n`. */
  lemma {:induction false} RunsCover(s: set<nat>, n: nat)
    ensures RunsCpus(Runs(s, n)) == Below(s, n)
  {
    if n > 0 {
      hide RunsCpus, Below, RunCpus;
      RunsCover(s, n - 1);
      BelowGrows(s, n);
      var before := Runs(s, n - 1);
      if n - 1 in s {
        if before != [] && before[|before| - 1].1 + 1 == n - 1 {
          GrowLastRun(before, n - 1);
        } else {
          RunsCpusSnoc(before, (n - 1, n - 1));
          Single(n - 1);
        }
      }
      assert RunsCpus(Runs(s, n)) == Below(s, n);
    }
  }

  /** The runs are maximal: between two of them at least one CPU is missing. */
  lemma {:induction false} RunsSeparated(s: set<nat>, n: nat)
    ensures Separated(Runs(s, n))
  {
    if n > 0 {
      RunsSeparated(s, n - 1);
    }
  }

  // ---------- round trip ----------

  lemma {:induction false} SplitWhole(p: string)
    requires forall i :: 0 <= i < |p| ==> !IsSeparator(p[i])
    ensures Split(p) == [p]
  {
    if p != [] {
      SplitWhole(p[1..]);
      assert [p[0]] + p[1..] == p;
    }
  }

  lemma {:induction false} SplitSnoc(text: string, p: string)
    requires forall i :: 0 <= i < |p| ==> !IsSeparator(p[i])
    ensures Split(text + "," + p) == Split(text) + [p]
  {
    var whole := text + "," + p;
    if text == [] {
      assert whole[1..] == p;
      SplitWhole(p);
    } else {
      assert whole[1..] == text[1..] + "," + p;
      SplitSnoc(text[1..], p);
    }
  }

  lemma TrimNoWhite(s: string)
    requires s != [] && !IsWhite(s[0]) && !IsWhite(s[|s| - 1])
    ensures Trim(s) == s
  {
  }

  lemma FindDashSplit(a: string, b: string)
    requires AllDigits(a)
    ensures FindDash(a + "-" + b) == |a|
  {
    var s := a + "-" + b;
    assert s[|a|] == '-';
    assert forall i :: 0 <= i < |a| ==> s[i] == a[i];
  }

  lemma {:induction false} ParseUsizeShow(n: nat)
    requires n <= USIZE_MAX
    ensures ParseUsize(Show(n)) == Some(n)
  {
    ValueOfShow(n);
  }

  lemma BoundsOfShowRun(r: Run)
    requires r.1 < CPU_SETSIZE
    ensures PartBounds(ShowRun(r)) == Some((r.0, r.1))
  {
    var text := ShowRun(r);
    ParseUsizeShow(r.0);
    ParseUsizeShow(r.1);
    if r.0 == r.1 {
      assert FindDash(text) == |text|;
    } else {
      FindDashSplit(Show(r.0), Show(r.1));
      assert text[..|Show(r.0)|] == Show(r.0);
      assert text[|Show(r.0)| + 1..] == Show(r.1);
    }
  }

  lemma CharsOfShowRun(r: Run)
    ensures ShowRun(r) != []
    ensures forall i :: 0 <= i < |ShowRun(r)| ==> IsDigit(ShowRun(r)[i]) || ShowRun(r)[i] == '-'
    ensures IsDigit(ShowRun(r)[0]) && IsDigit(ShowRun(r)[|ShowRun(r)| - 1])
  {
  }

  lemma PartOfShowRun(r: Run)
    requires r.1 < CPU_SETSIZE
    ensures PartCpus(ShowRun(r)) == Interval(r.0, r.1)
  {
    CharsOfShowRun(r);
    TrimNoWhite(ShowRun(r));
    BoundsOfShowRun(r);
  }

  // ---------- what the parser accepts ----------

  /** A text of two lists with a separator between them names the CPUs of both. */
  lemma ParseUnion(text: string, sep: char, more: string, present: Option<CpuSet>)
    requires sep == ',' || sep == ' ' || sep == '\t'
    ensures Parse(text + [sep] + more, present) == Parse(text, present) + Parse(more, present)
  {
    SplitConcat(text, sep, more);
    PartsConcat(Split(text), Split(more));
  }

  lemma {:induction false} SplitConcat(text: string, sep: char, more: string)
    requires IsSeparator(sep)
    ensures Split(text + [sep] + more) == Split(text) + Split(more)
  {
    var whole := text + [sep] + more;
    if text == [] {
      assert whole[1..] == more;
    } else {
      assert whole[1..] == text[1..] + [sep] + more;
      SplitConcat(text[1..], sep, more);
    }
  }

  lemma {:induction false} PartsConcat(a: seq<string>, b: seq<string>)
    ensures PartsCpus(a + b) == PartsCpus(a) + PartsCpus(b)
  {
    if b == [] {
      assert a + b == a;
    } else {
      var init, last := b[..|b| - 1], b[|b| - 1];
      PartsConcat(a, init);
      assert (a + b)[..|a + b| - 1] == a + init && (a + b)[|a + b| - 1] == last;
      hide PartCpus;
      assert PartsCpus(a + b) == PartsCpus(a + init) + PartCpus(last);
    }
  }

  /** Trimming takes away white space at both ends and nothing else. */
  lemma TrimMeaning(s: string) returns (a: string, b: string)
    ensures s == a + Trim(s) + b
    ensures (forall i :: 0 <= i < |a| ==> IsWhite(a[i])) && (forall i :: 0 <= i < |b| ==> IsWhite(b[i]))
    ensures Trim(s) != "" ==> !IsWhite(Trim(s)[0]) && !IsWhite(Trim(s)[|Trim(s)| - 1])
  {
    a := TrimmedStart(s);
    b := TrimmedEnd(TrimStart(s));
  }

  lemma {:induction false} TrimmedStart(s: string) returns (a: string)
    ensures s == a + TrimStart(s) && forall i :: 0 <= i < |a| ==> IsWhite(a[i])
    ensures TrimStart(s) != "" ==> !IsWhite(TrimStart(s)[0])
  {
    a := "";
    if s != "" && IsWhite(s[0]) {
      a := TrimmedStart(s[1..]);
      a := [s[0]] + a;
    }
  }

  lemma {:induction false} TrimmedEnd(s: string) returns (b: string)
    ensures s == TrimEnd(s) + b && forall i :: 0 <= i < |b| ==> IsWhite(b[i])
    ensures TrimEnd(s) != "" ==> !IsWhite(TrimEnd(s)[|TrimEnd(s)| - 1])
  {
    b := "";
    if s != "" && IsWhite(s[|s| - 1]) {
      b := TrimmedEnd(s[..|s| - 1]);
      b := b + [s[|s| - 1]];
    }
  }

  /** White space around a part does not matter, and alone it names no CPU. */
  lemma BlankMeaning(raw: string)
    ensures PartCpus(raw) == PartCpus(Trim(raw)) && PartCpus("") == {}
  {
    var a, b := TrimMeaning(raw);
    if Trim(raw) != "" {
      TrimNoWhite(Trim(raw));
    }
  }

  /** What a part with a dash says, by the numbers before and after it. */
  lemma DashBounds(first: string, rest: string)
    requires forall i :: 0 <= i < |first| ==> first[i] != '-'
    ensures PartBounds(first + "-" + rest) ==
      match (ParseUsize(first), ParseUsize(rest))
      case (None, _) => None
      case (Some(a), None) => if a == 0xFFFF_FFFF_FFFF_FFFF then None else Some((a, a))
      case (Some(a), Some(b)) => if a == 0xFFFF_FFFF_FFFF_FFFF then None else Some((Min(a, b), Max(a, b)))
  {
    hide ParseUsize;
    var part := first + "-" + rest;
    assert part[|first|] == '-' && forall i :: 0 <= i < |first| ==> part[i] == first[i];
    assert FindDash(part) == |first|;
    assert part[..|first|] == first && part[|first| + 1..] == rest;
  }

  function Min(a: nat, b: nat): nat { if a <= b then a else b }

  function Max(a: nat, b: nat): nat { if a <= b then b else a }

  lemma PartAsBounds(part: string)
    requires part != "" && !IsWhite(part[0]) && !IsWhite(part[|part| - 1])
    ensures PartCpus(part) == match PartBounds(part) case None => {} case Some(b) => Interval(b.0, b.1)
  {
    TrimNoWhite(part);
  }

  lemma {:induction false} ParsedShow(n: nat)
    ensures ParseUsize(Show(n)) == if n <= 0xFFFF_FFFF_FFFF_FFFF then Some(n) else None
    ensures forall i :: 0 <= i < |Show(n)| ==> Show(n)[i] != '-' && !IsWhite(Show(n)[i])
  {
    ValueOfShow(n);
  }

  /**
   Two numbers with a dash name the CPUs between them, in either order; a second number that is too large
   counts as missing.
   */
  lemma PairMeaning(a: nat, b: nat)
    ensures forall c: nat :: c in PartCpus(Show(a) + "-" + Show(b)) <==>
      && c < 1024 && a < 0xFFFF_FFFF_FFFF_FFFF
      && if b > 0xFFFF_FFFF_FFFF_FFFF then c == a else a <= c <= b || b <= c <= a
  {
    ParsedShow(a);
    ParsedShow(b);
    hide ParseUsize, Show;
    var part := Show(a) + "-" + Show(b);
    DashBounds(Show(a), Show(b));
    assert part[0] == Show(a)[0] && part[|part| - 1] == Show(b)[|Show(b)| - 1];
    PartAsBounds(part);
    hide PartCpus, PartBounds;
  }

  /** A number, a dash and anything that is no number name that CPU alone. */
  lemma {:induction false} OpenMeaning(a: nat, rest: string)
    requires ParseUsize(rest) == None && (rest == "" || !IsWhite(rest[|rest| - 1]))
    ensures forall c: nat :: c in PartCpus(Show(a) + "-" + rest) <==> c < 1024 && c == a
  {
    ParsedShow(a);
    hide ParseUsize, Show;
    var part := Show(a) + "-" + rest;
    DashBounds(Show(a), rest);
    assert part[0] == Show(a)[0] && (rest != "" ==> part[|part| - 1] == rest[|rest| - 1]);
    PartAsBounds(part);
    hide PartCpus, PartBounds;
  }

  /** Anything that is no number names no CPU, whatever follows it after a dash. */
  lemma JunkMeaning(junk: string, rest: string)
    requires ParseUsize(junk) == None && (forall i :: 0 <= i < |junk| ==> junk[i] != '-' && !IsWhite(junk[i]))
    requires rest == "" || !IsWhite(rest[|rest| - 1])
    ensures PartCpus(junk) == {} && PartCpus(junk + "-" + rest) == {}
  {
    hide ParseUsize;
    var part := junk + "-" + rest;
    DashBounds(junk, rest);
    assert rest != "" ==> part[|part| - 1] == rest[|rest| - 1];
    assert junk != "" ==> part[0] == junk[0];
    PartAsBounds(part);
    if junk == "" {
      BlankMeaning("");
    } else {
      PartAsBounds(junk);
      assert FindDash(junk) == |junk|;
    }
  }

  /** A number has an optional plus sign and then digits only, at least one. */
  lemma NumberMeaning(s: string)
    ensures ParseUsize(s).Some? ==>
      s != "" && s != "+" && forall i :: 0 <= i < |s| ==> '0' <= s[i] <= '9' || (i == 0 && s[i] == '+')
  {
    if ParseUsize(s).Some? && s[0] == '+' {
      assert forall i :: 1 <= i < |s| ==> s[i] == s[1..][i - 1];
    }
  }

  lemma PlusMeaning(n: nat)
    ensures ParseUsize("+" + Show(n)) == ParseUsize(Show(n))
  {
    assert ("+" + Show(n))[1..] == Show(n);
  }

  lemma {:induction false} ParseOfShowRuns(runs: seq<Run>)
    requires forall i :: 0 <= i < |runs| ==> runs[i].1 < CPU_SETSIZE
    ensures PartsCpus(Split(ShowRuns(runs))) == RunsCpus(runs)
  {
    if runs == [] {
      assert Split("") == [[]] && PartsCpus([[]]) == PartsCpus([[]][..0]) + PartCpus([]);
    } else {
      var init, last := runs[..|runs| - 1], runs[|runs| - 1];
      assert runs == init + [last];
      RunsCpusSnoc(init, last);
      CharsOfShowRun(last);
      PartOfShowRun(last);
      assert Interval(last.0, last.1) == RunCpus(last);
      ParseOfShowRuns(init);
      if |runs| == 1 {
        SplitWhole(ShowRun(last));
        assert PartsCpus([ShowRun(last)]) == PartsCpus([ShowRun(last)][..0]) + PartCpus(ShowRun(last));
      } else {
        SplitSnoc(ShowRuns(init), ShowRun(last));
        var parts := Split(ShowRuns(init)) + [ShowRun(last)];
        assert parts[..|parts| - 1] == Split(ShowRuns(init));
      }
    }
  }

  /** Parsing the printed text of any CPU set gives the set back. */
  lemma RoundTrip(s: CpuSet)
    ensures Parse(RangeString(s), None) == s
  {
    RunsCover(s, CPU_SETSIZE);
    assert Below(s, CPU_SETSIZE) == s;
    ParseOfShowRuns(Runs(s, CPU_SETSIZE));
  }

  /** Directory names and CPU sets are one to one. */
  lemma RangeStringInjective(s: CpuSet, t: CpuSet)
    ensures RangeString(s) == RangeString(t) <==> s == t
  {
    RoundTrip(s);
    RoundTrip(t);
  }

  /** Printing what a text means is a canonical form: it has the same meaning, and equal meanings print alike. */
  lemma CanonicalForm(text: string, other: string)
    ensures Parse(RangeString(Parse(text, None)), None) == Parse(text, None)
    ensures RangeString(Parse(text, None)) == RangeString(Parse(other, None)) <==>
      Parse(text, None) == Parse(other, None)
  {
    RoundTrip(Parse(text, None));
    RangeStringInjective(Parse(text, None), Parse(other, None));
  }

  /** The empty text names the empty set and nothing else. */
  lemma EmptyName(s: CpuSet)
    ensures RangeString(s) == "" <==> s == {}
  {
    NoRuns({}, CPU_SETSIZE);
    RangeStringInjective(s, {});
  }

  lemma {:induction false} NoRuns(s: set<nat>, n: nat)
    requires s == {}
    ensures Runs(s, n) == []
  {
    if n > 0 {
      NoRuns(s, n - 1);
    }
  }

  lemma {:induction false} RunsAgree(s: set<nat>, t: set<nat>, n: nat)
    requires Below(s, n) == Below(t, n)
    ensures Runs(s, n) == Runs(t, n)
  {
    if n > 0 {
      assert forall c :: c < n ==> (c in s <==> c in Below(s, n)) && (c in t <==> c in Below(t, n));
      assert Below(s, n - 1) == Below(t, n - 1);
      RunsAgree(s, t, n - 1);
    }
  }

  /** Any separated run list is the one printed for the CPUs it covers. */
  lemma {:induction false} RunsUnique(runs: seq<Run>, n: nat)
    requires Separated(runs)
    requires forall i :: 0 <= i < |runs| ==> runs[i].1 < n
    ensures Runs(RunsCpus(runs), n) == runs
    decreases n
  {
    var s := RunsCpus(runs);
    if n > 0 {
      if runs == [] || runs[|runs| - 1].1 < n - 1 {
        RunsUnique(runs, n - 1);
        RunsCpusBelow(runs, n - 1);
      } else {
        RunsUniqueLast(runs, n);
      }
    }
  }

  lemma {:induction false} RunsUniqueLast(runs: seq<Run>, n: nat)
    requires Separated(runs) && runs != [] && n > 0 && runs[|runs| - 1].1 == n - 1
    requires forall i :: 0 <= i < |runs| ==> runs[i].1 < n
    ensures Runs(RunsCpus(runs), n) == runs
    decreases n, 0
  {
    hide *;
    var before := Shortened(runs, n);
    assert before == Shortened(runs, n);
    ShortenedOk(runs, n);
    RunsUnique(before, n - 1);
    WithoutTop(runs, n);
    RunsAgree(RunsCpus(runs), RunsCpus(before), n - 1);
    RunsTop(RunsCpus(runs), n);
  }

  /** The run list with the CPU n-1, which ends its last run, taken away. */
  function Shortened(runs: seq<Run>, n: nat): seq<Run>
    requires runs != [] && runs[|runs| - 1].1 == n - 1
  {
    var init, last := runs[..|runs| - 1], runs[|runs| - 1];
    if last.0 == last.1 then init else init + [(last.0, n - 2)]
  }

  lemma ShortenedOk(runs: seq<Run>, n: nat)
    requires Separated(runs) && runs != [] && n > 0 && runs[|runs| - 1].1 == n - 1
    ensures var before := Shortened(runs, n);
            && Separated(before) && (forall i :: 0 <= i < |before| ==> before[i].1 < n - 1)
            && runs == if before != [] && before[|before| - 1].1 + 1 == n - 1
              then before[..|before| - 1] + [(before[|before| - 1].0, n - 1)] else before + [(n - 1, n - 1)]
  {
    var init, last := runs[..|runs| - 1], runs[|runs| - 1];
    assert runs == init + [last];
    forall i | 0 <= i < |init| ensures init[i].1 + 1 < last.0 {
      assert runs[i].1 + 1 < runs[|init|].0;
    }
    var before := Shortened(runs, n);
    if last.0 != last.1 {
      assert before == init + [(last.0, n - 2)] && before[..|init|] == init;
      hide Shortened;
      assert runs == before[..|before| - 1] + [(before[|before| - 1].0, n - 1)];
    }
  }

  lemma RunsTop(s: set<nat>, n: nat)
    requires n > 0 && n - 1 in s
    ensures var before := Runs(s, n - 1);
            Runs(s, n) == if before != [] && before[|before| - 1].1 + 1 == n - 1
              then before[..|before| - 1] + [(before[|before| - 1].0, n - 1)] else before + [(n - 1, n - 1)]
  {
  }

  /** Taking the top CPU away shortens the last run by one, or removes it. */
  lemma WithoutTop(runs: seq<Run>, n: nat)
    requires Separated(runs) && runs != [] && n > 0 && runs[|runs| - 1].1 == n - 1
    ensures n - 1 in RunsCpus(runs)
    ensures Below(RunsCpus(runs), n - 1) == Below(RunsCpus(Shortened(runs, n)), n - 1)
  {
    var init, last := runs[..|runs| - 1], runs[|runs| - 1];
    if last.0 == last.1 {
      Single(n - 1);
    } else {
      RunsCpusSnoc(init, (last.0, n - 2));
      LastGrows(last.0, n - 2);
    }
  }
}
