/** Wildcard patterns: what counts as one, and the score that ranks them. */
module Patterns {
  const USIZE_RANGE: int := 0x1_0000_0000_0000_0000
  const MAX_PKG_LEN: nat := 128

  /** Bytes of one character in UTF-8. */
  function Utf8Len(c: char): (n: nat)
    ensures 1 <= n <= 4
  {
    if c < '\U{80}' then 1 else if c < '\U{800}' then 2 else if c < '\U{10000}' then 3 else 4
  }

  function ByteLen(s: string): (n: nat)
    ensures |s| <= n <= 4 * |s|
  {
    if s == "" then 0 else ByteLen(s[..|s| - 1]) + Utf8Len(s[|s| - 1])
  }

  predicate HasNul(s: string) { '\0' in s }

  predicate ContainsWildcard(s: string) { '*' in s || '?' in s || '[' in s }

  /** The characters the score counts as wildcards. */
  predicate Special(c: char) { c == '*' || c == '?' || c == '[' || c == ']' }

  function Specials(s: string): (n: nat)
    ensures n <= |s|
  {
    if s == "" then 0 else Specials(s[..|s| - 1]) + if Special(s[|s| - 1]) then 1 else 0
  }

  /** The text before the first wildcard character. */
  function FixedPrefix(s: string): (p: string)
    ensures p <= s && forall i :: 0 <= i < |p| ==> !Special(p[i])
    ensures |p| < |s| ==> Special(s[|p|])
  {
    if s == "" then ""
    else
      var p := FixedPrefix(s[..|s| - 1]);
      if |p| < |s| - 1 || Special(s[|s| - 1]) then p else s
  }

  function PrefixBytes(s: string): nat { ByteLen(FixedPrefix(s)) }

  /** The score as a number that may be negative: 100 per prefix byte, 1 per literal, minus 10 per wildcard. */
  function RawScore(s: string): int {
    100 * PrefixBytes(s) + (|s| - Specials(s)) - 10 * Specials(s)
  }

  /** The score in 64-bit unsigned arithmetic, which wraps around below zero. */
  function Specificity(s: string): nat { RawScore(s) % USIZE_RANGE }

  // ---------- the loop ----------

  lemma {:induction false} ByteLenMonotone(s: string, k: nat)
    requires k <= |s|
    ensures ByteLen(s[..k]) + (|s| - k) <= ByteLen(s)
  {
    if k < |s| {
      ByteLenMonotone(s[..|s| - 1], k);
      assert s[..|s| - 1][..k] == s[..k];
    } else {
      assert s[..k] == s;
    }
  }

  lemma PrefixStep(s: string, i: nat)
    requires i < |s|
    ensures FixedPrefix(s[..i]) == s[..i] ==> FixedPrefix(s[..i + 1]) == if Special(s[i]) then s[..i] else s[..i + 1]
    ensures FixedPrefix(s[..i]) != s[..i] ==> FixedPrefix(s[..i + 1]) == FixedPrefix(s[..i]) != s[..i + 1]
    ensures Specials(s[..i + 1]) == Specials(s[..i]) + if Special(s[i]) then 1 else 0
    ensures ByteLen(s[..i + 1]) == ByteLen(s[..i]) + Utf8Len(s[i])
  {
    assert s[..i + 1][..i] == s[..i];
  }

  method PatternSpecificity(s: string) returns (score: nat)
    ensures score == Specificity(s)
  {
    hide FixedPrefix, Specials, ByteLen;
    var len := ByteLen(s);
    var prefixLen, literals, wildcards := len, 0, 0;
    var offset := 0;
    Empty();
    for i := 0 to |s|
      invariant offset == ByteLen(s[..i])
      invariant wildcards == Specials(s[..i]) && literals == i - wildcards
      invariant if FixedPrefix(s[..i]) == s[..i] then prefixLen == len else prefixLen == PrefixBytes(s[..i]) < len
    {
      PrefixStep(s, i);
      ByteLenMonotone(s, i);
      if Special(s[i]) {
        if prefixLen == len {
          prefixLen := offset;
        }
        wildcards := wildcards + 1;
      } else {
        literals := literals + 1;
      }
      offset := offset + Utf8Len(s[i]);
    }
    assert s[..|s|] == s;
    score := (prefixLen * 100 + literals - wildcards * 10) % USIZE_RANGE;
  }

  lemma Empty()
    ensures FixedPrefix("") == "" && Specials("") == 0 && ByteLen("") == 0
  {
  }

  /**
   The parts of the score, counted: the wildcard characters are '*', '?', '[' and ']', and the fixed
   prefix is the longest one without any of them.
   */
  lemma SpecialsMeaning(s: string)
    ensures Specials(s) == |set i | 0 <= i < |s| && s[i] in {'*', '?', '[', ']'}|
    ensures var p := |FixedPrefix(s)|;
            p <= |s| && (forall i :: 0 <= i < p ==> s[i] !in {'*', '?', '[', ']'}) &&
              (p < |s| ==> s[p] in {'*', '?', '[', ']'})
  {
    SpecialsCount(s);
    assert (set i | 0 <= i < |s| && Special(s[i])) == set i | 0 <= i < |s| && s[i] in {'*', '?', '[', ']'};
  }

  lemma {:induction false} SpecialsCount(s: string)
    ensures Specials(s) == |set i | 0 <= i < |s| && Special(s[i])|
  {
    hide Special;
    var all := set i | 0 <= i < |s| && Special(s[i]);
    if s == "" {
      assert all == {};
    } else {
      var n := |s| - 1;
      SpecialsCount(s[..n]);
      var before := set i | 0 <= i < n && Special(s[..n][i]);
      assert all == before + if Special(s[n]) then {n} else {};
    }
  }

  // ---------- what the score ranks ----------

  lemma {:induction false} ScoreOf(s: string)
    requires ByteLen(s) < MAX_PKG_LEN
    ensures -1280 < RawScore(s) < 12928
    ensures Specificity(s) == if RawScore(s) >= 0 then RawScore(s) else USIZE_RANGE + RawScore(s)
  {
    PrefixFits(s);
    assert 0 <= Specials(s) <= |s| < MAX_PKG_LEN;
    WrapOnce(RawScore(s));
  }

  lemma {:induction false} PrefixFits(s: string)
    ensures PrefixBytes(s) <= ByteLen(s)
  {
    ByteLenMonotone(s, |FixedPrefix(s)|);
    assert s[..|FixedPrefix(s)|] == FixedPrefix(s);
  }

  lemma WrapOnce(x: int)
    requires -USIZE_RANGE <= x < USIZE_RANGE
    ensures x % USIZE_RANGE == if x >= 0 then x else USIZE_RANGE + x
  {
    if x < 0 {
      assert x == (-1) * USIZE_RANGE + (USIZE_RANGE + x);
    }
  }

  /** A special character is one byte, so a pattern has fewer literals than bytes. */
  lemma {:induction false} LiteralsBelowBytes(s: string)
    ensures |s| - Specials(s) + Specials(s) <= ByteLen(s)
    ensures FixedPrefix(s) != "" ==> |s| - Specials(s) >= 1
  {
    if FixedPrefix(s) != "" {
      PrefixIsLiteral(s);
    }
  }

  lemma {:induction false} PrefixIsLiteral(s: string)
    ensures |FixedPrefix(s)| <= |s| - Specials(s)
  {
    if s != "" {
      PrefixIsLiteral(s[..|s| - 1]);
    }
  }

  /**
   Of two patterns with as many wildcard characters, the one with the longer fixed prefix ranks
   strictly higher, provided the other one is at most 101 bytes long, and exactly when the other
   one's score does not wrap around (or both do).
   */
  lemma LongerPrefixWins(p: string, q: string)
    requires Specials(p) == Specials(q) && ContainsWildcard(q)
    requires PrefixBytes(p) > PrefixBytes(q)
    requires ByteLen(q) <= 101 && ByteLen(p) < MAX_PKG_LEN
    ensures RawScore(p) > RawScore(q)
    ensures Specificity(p) > Specificity(q) <==> RawScore(q) >= 0 || RawScore(p) < 0
  {
    LiteralsBelowBytes(p);
    LiteralsBelowBytes(q);
    WildcardIsSpecial(q);
    ScoreOf(p);
    ScoreOf(q);
  }

  /**
   Any two patterns with as many wildcard characters, of whatever length: if both scores wrap around or
   neither does, prefix bytes weigh a hundred times the difference in characters; otherwise the one
   that wraps ranks higher.
   */
  lemma {:induction false} EqualWildcards(p: string, q: string)
    requires Specials(p) == Specials(q) && ByteLen(p) < MAX_PKG_LEN && ByteLen(q) < MAX_PKG_LEN
    ensures Specificity(p) > Specificity(q) <==>
      if Wraps(p) <==> Wraps(q) then 100 * (PrefixBytes(p) - PrefixBytes(q)) > |q| - |p| else Wraps(p)
  {
    ScoreOf(p);
    ScoreOf(q);
  }

  /** The wildcards outweigh the prefix and the literals. */
  predicate Wraps(s: string) { 10 * Specials(s) > 100 * PrefixBytes(s) + (|s| - Specials(s)) }

  lemma {:induction false} WildcardIsSpecial(s: string)
    requires ContainsWildcard(s)
    ensures Specials(s) >= 1
  {
    assert s == s[..|s| - 1] + [s[|s| - 1]];
    if !Special(s[|s| - 1]) {
      WildcardIsSpecial(s[..|s| - 1]);
    }
  }

  /** Ten times the wildcards at most a hundred times the prefix plus the literals: the score does not wrap. */
  lemma {:induction false} NoWrap(s: string)
    requires ByteLen(s) < MAX_PKG_LEN
    ensures 10 * Specials(s) <= 100 * PrefixBytes(s) + (|s| - Specials(s)) <==> Specificity(s) == RawScore(s)
    ensures 10 * Specials(s) <= 100 * PrefixBytes(s) + (|s| - Specials(s)) <==> Specificity(s) < 12928
  {
    ScoreOf(s);
  }

  /** The score is 0 exactly when the prefix and the literals just make up for the wildcards. */
  lemma {:induction false} ZeroScore(s: string)
    requires ByteLen(s) < MAX_PKG_LEN
    ensures Specificity(s) == 0 <==> 10 * Specials(s) == 100 * PrefixBytes(s) + (|s| - Specials(s))
  {
    ScoreOf(s);
  }

  /** A pattern whose score wraps around outranks every pattern whose score does not. */
  lemma {:induction false} WrappedScoreWins(s: string, t: string)
    requires ByteLen(s) < MAX_PKG_LEN && ByteLen(t) < MAX_PKG_LEN
    requires RawScore(s) < 0 <= RawScore(t)
    ensures Specificity(s) > Specificity(t)
  {
    ScoreOf(s);
    ScoreOf(t);
  }

  function Star(n: nat): string { "*" + seq(n, _ => 'a') }

  lemma {:induction false} StarScore(n: nat)
    ensures Specials(Star(n)) == 1 && FixedPrefix(Star(n)) == "" && ByteLen(Star(n)) == n + 1
  {
    if n == 0 {
      assert Star(0) == "*" && "*"[..0] == "";
    } else {
      StarScore(n - 1);
      assert Star(n)[..n] == Star(n - 1);
    }
  }

  /**
   The length bound is exact, and so is the wrap-around: "a*" ranks above a star followed by `n`
   letters just when the latter has at least 10 and at most 100 of them. "*" alone ranks above both.
   */
  lemma PrefixBoundIsExact(n: nat)
    requires n < 127
    ensures Specificity("a*") > Specificity(Star(n)) <==> 10 <= n <= 100
  {
    StarScore(n);
    ScoreOf(Star(n));
    assert Specials("a*") == 1 && FixedPrefix("a*") == "a" && ByteLen("a*") == 2 by {
      assert "a*"[..1] == "a" && "a"[..0] == "";
    }
    ScoreOf("a*");
  }

  /** The pattern "com.*.service" has four prefix bytes and twelve literals, so it scores 402. */
  lemma ComService()
    ensures Specificity("com.*.service") == 402
  {
    var s := "com.*.service";
    Literals(s, 0, 4);
    PrefixStep(s, 4);
    Literals(s, 5, 13);
    Empty();
    assert s[..13] == s && s[..0] == "" && s[..4] != s[..5];
    hide Specials, FixedPrefix, ByteLen;
    assert Specials(s) == 1 && PrefixBytes(s) == 4 && RawScore(s) == 402;
  }

  /** Literal characters of one byte add no wildcard; they lengthen the fixed prefix while it is all there is. */
  lemma {:induction false} Literals(s: string, i: nat, k: nat)
    requires i <= k <= |s| && forall j :: i <= j < k ==> !Special(s[j]) && s[j] < '\U{80}'
    ensures Specials(s[..k]) == Specials(s[..i]) && ByteLen(s[..k]) == ByteLen(s[..i]) + (k - i)
    ensures FixedPrefix(s[..k]) == if FixedPrefix(s[..i]) == s[..i] then s[..k] else FixedPrefix(s[..i])
    decreases k
  {
    if i < k {
      Literals(s, i, k - 1);
      PrefixStep(s, k - 1);
    }
  }

  /** A text of n one-byte literals and a star scores 101 n - 10. */
  lemma PrefixStar(p: string)
    requires p != "" && |p| < 100 && forall j :: 0 <= j < |p| ==> !Special(p[j]) && p[j] < '\U{80}'
    ensures Specificity(p + "*") == 101 * |p| - 10
  {
    var s := p + "*";
    assert s[..|p|] == p && s[..|s|] == s && s[..0] == "" && s[|p|] == '*';
    Literals(s, 0, |p|);
    PrefixStep(s, |p|);
    Empty();
    hide Specials, FixedPrefix, ByteLen;
    assert RawScore(s) == 101 * |p| - 10;
  }

  /** A star followed by ten letters scores 0. */
  lemma TenLetters()
    ensures Specificity(Star(10)) == 0 && Star(10) == "*aaaaaaaaaa"
  {
    StarScore(10);
    ZeroScore(Star(10));
  }
}
