/**
 The 1024-bit CPU bitmap, laid out as 16 words of 64 bits, and its loops.
 A word is its 64 bits. Every operation is tied to the set of CPUs the bitmap
 stands for, which is what the other modules work with.
 */
module CpuBitmap {
  import opened Prelude
  import opened CpuText

  const WORD_BITS: nat := 64
  const WORDS: nat := 16

  type Word = w: seq<bool> | |w| == 64 witness seq(64, _ => false)

  const ZERO: Word := seq(64, _ => false)

  function OrWord(a: Word, b: Word): Word { seq(64, i requires 0 <= i < 64 => a[i] || b[i]) }

  function AndWord(a: Word, b: Word): Word { seq(64, i requires 0 <= i < 64 => a[i] && b[i]) }

  predicate Bit(words: seq<Word>, cpu: nat)
    requires |words| == WORDS
  {
    cpu < CPU_SETSIZE && words[cpu / WORD_BITS][cpu % WORD_BITS]
  }

  function CpusOf(words: seq<Word>): (s: CpuSet)
    requires |words| == WORDS
    ensures forall c: nat :: c in s <==> Bit(words, c)
  {
    set c: nat | c < CPU_SETSIZE && Bit(words, c)
  }

  lemma BitAt(words: seq<Word>, w: nat, b: nat)
    requires |words| == WORDS && w < WORDS && b < WORD_BITS
    ensures w * WORD_BITS + b in CpusOf(words) <==> words[w][b]
  {
    var cpu := w * WORD_BITS + b;
    assert cpu / WORD_BITS == w && cpu % WORD_BITS == b;
  }

  lemma ZeroWord(words: seq<Word>, w: nat)
    requires |words| == WORDS && w < WORDS && words[w] == ZERO
    ensures forall c :: w * WORD_BITS <= c < w * WORD_BITS + WORD_BITS ==> c !in CpusOf(words)
  {
    forall c: nat | w * WORD_BITS <= c < w * WORD_BITS + WORD_BITS ensures c !in CpusOf(words) {
      BitAt(words, w, c - w * WORD_BITS);
    }
  }

  /** Comparing the words compares the CPU sets. */
  lemma SameWords(a: seq<Word>, b: seq<Word>)
    requires |a| == |b| == WORDS
    ensures a == b <==> CpusOf(a) == CpusOf(b)
  {
    if CpusOf(a) == CpusOf(b) {
      forall w, i | 0 <= w < WORDS && 0 <= i < WORD_BITS ensures a[w][i] == b[w][i] {
        var cpu := w * WORD_BITS + i;
        assert cpu / WORD_BITS == w && cpu % WORD_BITS == i;
        assert Bit(a, cpu) <==> cpu in CpusOf(a);
        assert Bit(b, cpu) <==> cpu in CpusOf(b);
      }
      forall w | 0 <= w < WORDS ensures a[w] == b[w] {
      }
    }
  }

  lemma {:induction false} RunsSkip(s: set<nat>, m: nat, n: nat)
    requires m <= n
    requires forall c :: m <= c < n ==> c !in s
    ensures Runs(s, n) == Runs(s, m)
    decreases n
  {
    if m < n {
      RunsSkip(s, m, n - 1);
    }
  }

  class CpuBits {
    const bits: array<Word>

    ghost predicate Valid() { bits.Length == WORDS }

    ghost function Cpus(): CpuSet
      reads bits
      requires Valid()
    {
      CpusOf(bits[..])
    }

    constructor ()
      ensures Valid() && fresh(bits)
      ensures Cpus() == {}
    {
      bits := new Word[WORDS](_ => ZERO);
    }

    method Set(cpu: nat)
      requires Valid()
      modifies bits
      ensures Cpus() == old(Cpus()) + (if cpu < CPU_SETSIZE then {cpu} else {})
    {
      if cpu < CPU_SETSIZE {
        bits[cpu / WORD_BITS] := bits[cpu / WORD_BITS][cpu % WORD_BITS := true];
        forall c: nat ensures c in Cpus() <==> c in old(Cpus()) || c == cpu {
          if c / WORD_BITS == cpu / WORD_BITS && c % WORD_BITS == cpu % WORD_BITS {
            assert c == cpu;
          }
        }
      }
    }

    method IsSet(cpu: nat) returns (r: bool)
      requires Valid()
      ensures r <==> cpu in Cpus()
    {
      r := cpu < CPU_SETSIZE && bits[cpu / WORD_BITS][cpu % WORD_BITS];
    }

    /** Comparing the words one by one decides equality of the sets. */
    method SameBits(other: CpuBits) returns (r: bool)
      requires Valid() && other.Valid()
      ensures r <==> Cpus() == other.Cpus()
    {
      SameWords(bits[..], other.bits[..]);
      for w := 0 to WORDS
        invariant forall v :: 0 <= v < w ==> bits[v] == other.bits[v]
      {
        if bits[w] != other.bits[w] {
          assert bits[..][w] != other.bits[..][w];
          return false;
        }
      }
      return true;
    }

    /** Number of CPUs in the set, word by word. */
    method Count() returns (n: nat)
      requires Valid()
      ensures n == |Cpus()|
    {
      n := 0;
      for w := 0 to WORDS
        invariant n == |Below(Cpus(), w * WORD_BITS)|
      {
        forall b | 0 <= b < WORD_BITS ensures w * WORD_BITS + b in Cpus() <==> bits[w][b] {
          BitAt(bits[..], w, b);
        }
        var ones := CountOnes(bits[w], w * WORD_BITS, Cpus());
        n := n + ones;
      }
      assert Below(Cpus(), CPU_SETSIZE) == Cpus();
    }

    method IsEmpty() returns (r: bool)
      requires Valid()
      ensures r <==> Cpus() == {}
    {
      var w := 0;
      while w < WORDS
        invariant w <= WORDS
        invariant forall v :: 0 <= v < w ==> bits[v] == ZERO
      {
        if bits[w] != ZERO {
          var b :| 0 <= b < WORD_BITS && bits[w][b];
          assert (w * WORD_BITS + b) in Cpus() by {
            assert (w * WORD_BITS + b) / WORD_BITS == w && (w * WORD_BITS + b) % WORD_BITS == b;
          }
          return false;
        }
        w := w + 1;
      }
      forall c: nat ensures c !in Cpus() {
        if c < CPU_SETSIZE {
          assert bits[c / WORD_BITS] == ZERO;
        }
      }
      return true;
    }

    method Or(other: CpuBits)
      requires Valid() && other.Valid()
      modifies bits
      ensures Cpus() == old(Cpus()) + old(other.Cpus())
    {
      for w := 0 to WORDS
        invariant forall v :: 0 <= v < w ==> bits[v] == OrWord(old(bits[v]), old(other.bits[v]))
        invariant forall v :: w <= v < WORDS ==> bits[v] == old(bits[v]) && other.bits[v] == old(other.bits[v])
      {
        bits[w] := OrWord(bits[w], other.bits[w]);
      }
      forall c: nat ensures c in Cpus() <==> c in old(Cpus()) || c in old(other.Cpus()) {
        if c < CPU_SETSIZE {
          assert bits[c / WORD_BITS] == OrWord(old(bits[c / WORD_BITS]), old(other.bits[c / WORD_BITS]));
        }
      }
    }

    method And(other: CpuBits)
      requires Valid() && other.Valid()
      modifies bits
      ensures Cpus() == old(Cpus()) * old(other.Cpus())
    {
      for w := 0 to WORDS
        invariant forall v :: 0 <= v < w ==> bits[v] == AndWord(old(bits[v]), old(other.bits[v]))
        invariant forall v :: w <= v < WORDS ==> bits[v] == old(bits[v]) && other.bits[v] == old(other.bits[v])
      {
        bits[w] := AndWord(bits[w], other.bits[w]);
      }
      forall c: nat ensures c in Cpus() <==> c in old(Cpus()) && c in old(other.Cpus()) {
        if c < CPU_SETSIZE {
          assert bits[c / WORD_BITS] == AndWord(old(bits[c / WORD_BITS]), old(other.bits[c / WORD_BITS]));
        }
      }
    }

    /** Printing walks the words, closing the open run early at an all-zero word. */
    method ToRangeString() returns (out: string)
      requires Valid()
      ensures out == RangeString(Cpus())
    {
      hide Runs, ShowRuns, CpusOf;
      var p := Printer("", None, None, true);
      PrintStart(CpusOf(bits[..]));
      ghost var words, closed: seq<Run> := bits[..], [];
      for w := 0 to WORDS
        invariant bits[..] == words
        invariant Printed(CpusOf(words), w * WORD_BITS, closed, p)
      {
        p, closed := PrintWord(bits[w], w, p, words, closed);
      }
      ghost var s := CpusOf(words);
      assert closed + Open(p) == Runs(s, CPU_SETSIZE);
      p, closed := PushRange(p, closed);
      return p.out;
    }
  }

  method CountOnes(word: Word, ghost base: nat, ghost s: set<nat>) returns (n: nat)
    requires forall b :: 0 <= b < 64 ==> (base + b in s <==> word[b])
    ensures |Below(s, base)| + n == |Below(s, base + 64)|
  {
    n := 0;
    for b := 0 to 64
      invariant |Below(s, base)| + n == |Below(s, base + b)|
    {
      BelowGrows(s, base + b + 1);
      assert base + b in s <==> word[b];
      if word[b] {
        n := n + 1;
      }
    }
  }

  /** The printer's local variables: text so far, open run, and whether nothing is written yet. */
  datatype Printer = Printer(out: string, start: Option<nat>, end: Option<nat>, first: bool)

  predicate OpenOk(p: Printer) { p.start.Some? ==> p.end.Some? && p.start.value <= p.end.value }

  function Open(p: Printer): seq<Run>
    requires OpenOk(p)
  {
    if p.start.None? then [] else [(p.start.value, p.end.value)]
  }

  /** Where the printer stands after looking at the CPUs below `n`: `closed` is written out, one run may be open. */
  ghost predicate Printed(s: set<nat>, n: nat, closed: seq<Run>, p: Printer) {
    && OpenOk(p)
    && Runs(s, n) == closed + Open(p)
    && (if p.start.None? then closed != [] ==> closed[|closed| - 1].1 + 1 < n else p.end.value < n)
    && Written(closed, p)
  }

  ghost predicate Written(closed: seq<Run>, p: Printer) {
    p.out == ShowRuns(closed) && (p.first <==> closed == [])
  }

  method PushRange(p: Printer, ghost closed: seq<Run>) returns (q: Printer, ghost closed': seq<Run>)
    requires OpenOk(p) && Written(closed, p)
    ensures q.start.None? && q.end.None?
    ensures closed' == closed + Open(p) && Written(closed', q)
  {
    var out, first := p.out, p.first;
    if p.start.Some? && p.end.Some? {
      if !first {
        out := out + ",";
      }
      if p.start.value == p.end.value {
        out := out + Show(p.start.value);
      } else {
        out := out + (Show(p.start.value) + "-" + Show(p.end.value));
      }
      first := false;
      closed' := closed + Open(p);
      assert closed'[..|closed|] == closed;
    } else {
      closed' := closed;
    }
    q := Printer(out, None, None, first);
  }

  lemma PrintClosed(s: set<nat>, n: nat, closed: seq<Run>, p: Printer, q: Printer)
    requires Printed(s, n, closed, p) && p.start.Some? && p.end.value + 1 < n
    requires q.start.None? && Written(closed + Open(p), q)
    ensures Printed(s, n, closed + Open(p), q)
  {
    assert closed + Open(p) + [] == closed + Open(p);
  }

  lemma PrintStart(s: set<nat>)
    ensures Printed(s, 0, [], Printer("", None, None, true))
  {
  }

  lemma PrintGap(s: set<nat>, m: nat, n: nat, closed: seq<Run>, p: Printer)
    requires Printed(s, m, closed, p)
    requires m <= n && forall c :: m <= c < n ==> c !in s
    ensures Printed(s, n, closed, p)
  {
    RunsSkip(s, m, n);
  }

  lemma PrintOpen(s: set<nat>, n: nat, closed: seq<Run>, p: Printer)
    requires Printed(s, n, closed, p) && p.start.None? && n in s
    ensures Printed(s, n + 1, closed, p.(start := Some(n), end := Some(n)))
  {
    assert Runs(s, n) == closed;
  }

  lemma PrintGrow(s: set<nat>, n: nat, closed: seq<Run>, p: Printer)
    requires Printed(s, n, closed, p) && n in s
    requires p.start.Some? && p.end.value + 1 == n
    ensures Printed(s, n + 1, closed, p.(end := Some(n)))
  {
    assert Runs(s, n)[..|closed|] == closed;
  }

  method PrintWord(word: Word, w: nat, p: Printer, ghost words: seq<Word>, ghost closed: seq<Run>)
    returns (q: Printer, ghost closed': seq<Run>)
    requires |words| == WORDS && w < WORDS && words[w] == word
    requires Printed(CpusOf(words), w * WORD_BITS, closed, p)
    ensures Printed(CpusOf(words), (w + 1) * WORD_BITS, closed', q)
  {
    hide Runs, ShowRuns, CpusOf;
    var base := w * WORD_BITS;
    ghost var s := CpusOf(words);
    if word == ZERO {
      ZeroWord(words, w);
      PrintGap(s, base, base + WORD_BITS, closed, p);
      q, closed' := p, closed;
      if p.start.Some? {
        q, closed' := PushRange(p, closed);
        PrintClosed(s, base + WORD_BITS, closed, p, q);
      }
    } else {
      forall b | 0 <= b < WORD_BITS ensures base + b in s <==> word[b] {
        BitAt(words, w, b);
      }
      q, closed' := PrintBits(word, base, p, s, closed);
    }
  }

  method PrintBits(word: Word, base: nat, p: Printer, ghost s: set<nat>, ghost closed: seq<Run>)
    returns (q: Printer, ghost closed': seq<Run>)
    requires forall b :: 0 <= b < 64 ==> (base + b in s <==> word[b])
    requires Printed(s, base, closed, p)
    ensures Printed(s, base + 64, closed', q)
  {
    hide *;
    q, closed' := p, closed;
    for bit := 0 to 64
      invariant Printed(s, base + bit, closed', q)
    {
      assert base + bit in s <==> word[bit];
      if word[bit] {
        q, closed' := PrintCpu(base + bit, q, s, closed');
      } else {
        PrintGap(s, base + bit, base + bit + 1, closed', q);
      }
    }
  }

  method PrintCpu(cpu: nat, p: Printer, ghost s: set<nat>, ghost closed: seq<Run>)
    returns (q: Printer, ghost closed': seq<Run>)
    requires cpu in s && Printed(s, cpu, closed, p)
    ensures Printed(s, cpu + 1, closed', q)
  {
    q, closed' := p, closed;
    if p.start.None? {
      PrintOpen(s, cpu, closed, p);
      q := p.(start := Some(cpu), end := Some(cpu));
    } else if cpu == p.end.value + 1 {
      PrintGrow(s, cpu, closed, p);
      q := p.(end := Some(cpu));
    } else {
      q, closed' := PushRange(p, closed);
      PrintClosed(s, cpu, closed, p, q);
      PrintOpen(s, cpu, closed', q);
      q := q.(start := Some(cpu), end := Some(cpu));
    }
  }

  ghost function MaskOf(present: Option<CpuBits>): Option<CpuSet>
    requires present.Some? ==> present.value.Valid()
    reads if present.Some? then {present.value.bits} else {}
  {
    if present.Some? then Some(present.value.Cpus()) else None
  }

  /** The inner loop of the parser: set lo..=hi, clipped to the bitmap and to the present CPUs. */
  method SetInterval(cpus: CpuBits, lo: nat, hi: nat, present: Option<CpuBits>)
    requires cpus.Valid() && (present.Some? ==> present.value.Valid() && present.value.bits != cpus.bits)
    modifies cpus.bits
    ensures cpus.Cpus() == old(cpus.Cpus()) + Masked(Interval(lo, hi), MaskOf(present))
  {
    var top := if hi < CPU_SETSIZE - 1 then hi else CPU_SETSIZE - 1;
    var i := lo;
    ghost var mask, before := MaskOf(present), cpus.Cpus();
    while i <= top
      invariant lo <= i && (i <= top + 1 || i == lo)
      invariant MaskOf(present) == mask
      invariant forall c: nat :: c in cpus.Cpus() <==> c in before || (lo <= c < i && (mask.None? || c in mask.value))
    {
      var skip := false;
      if present.Some? {
        var on := present.value.IsSet(i);
        skip := !on;
      }
      if !skip {
        cpus.Set(i);
      }
      i := i + 1;
    }
  }

  lemma MaskDistributes(s: CpuSet, t: CpuSet, mask: Option<CpuSet>)
    ensures Masked(s + t, mask) == Masked(s, mask) + Masked(t, mask)
  {
  }

  lemma PartsSnoc(parts: seq<string>, k: nat)
    requires k < |parts|
    ensures PartsCpus(parts[..k + 1]) == PartsCpus(parts[..k]) + PartCpus(parts[k])
  {
    assert parts[..k + 1][..k] == parts[..k];
  }

  method ParseCpuRanges(spec: string, present: Option<CpuBits>) returns (cpus: CpuBits)
    requires present.Some? ==> present.value.Valid()
    ensures cpus.Valid() && fresh(cpus) && fresh(cpus.bits)
    ensures cpus.Cpus() == Parse(spec, MaskOf(present))
  {
    hide PartsCpus, PartBounds, Interval, CpusOf, Masked, Split, Trim;
    cpus := new CpuBits();
    if spec == "" {
      EmptyText(MaskOf(present));
      return;
    }
    var parts := Split(spec);
    ghost var mask := MaskOf(present);
    NoParts(mask);
    for k := 0 to |parts|
      invariant cpus.Valid() && fresh(cpus) && fresh(cpus.bits) && MaskOf(present) == mask
      invariant cpus.Cpus() == Masked(PartsCpus(parts[..k]), mask)
    {
      PartsSnoc(parts, k);
      MaskDistributes(PartsCpus(parts[..k]), PartCpus(parts[k]), mask);
      NoParts(mask);
      var part := Trim(parts[k]);
      if part == "" {
        continue;
      }
      match PartBounds(part) {
        case None =>
        case Some(bounds) =>
          SetInterval(cpus, bounds.0, bounds.1, present);
      }
    }
    assert parts[..|parts|] == parts;
  }

  lemma NoParts(mask: Option<CpuSet>)
    ensures Masked(PartsCpus([]), mask) == Masked({}, mask) == {}
  {
  }

  lemma EmptyText(mask: Option<CpuSet>)
    ensures Parse("", mask) == {}
  {
    assert PartsCpus([[]]) == PartsCpus([[]][..0]) + PartCpus([]);
  }
}
