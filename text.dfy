/**
 * The pieces of Go's `strings`, `unicode` and `fmt` behaviour that the
 * dictionary client depends on, over strings of Unicode scalar values.
 */
module Text {

  /** Go's `unicode.IsSpace`: the Latin-1 spaces plus the other White_Space characters. */
  predicate IsSpace(c: char) {
    c == '\t' || c == '\n' || c == '\U{000B}' || c == '\U{000C}' || c == '\r' || c == ' '
    || c == '\U{0085}' || c == '\U{00A0}' || c == '\U{1680}'
    || ('\U{2000}' <= c <= '\U{200A}')
    || c == '\U{2028}' || c == '\U{2029}' || c == '\U{202F}' || c == '\U{205F}' || c == '\U{3000}'
  }

  /** Every character is white space (the empty string included). */
  predicate IsBlank(s: string) {
    forall k :: 0 <= k < |s| ==> IsSpace(s[k])
  }

  /** Drops the leading white space. */
  function TrimLeadingSpace(s: string): string
    decreases |s|
  {
    if s != [] && IsSpace(s[0]) then TrimLeadingSpace(s[1..]) else s
  }

  /** Drops the trailing white space. */
  function TrimTrailingSpace(s: string): string
    decreases |s|
  {
    if s != [] && IsSpace(s[|s| - 1]) then TrimTrailingSpace(s[..|s| - 1]) else s
  }

  /**
   * Go's `strings.TrimSpace`: what is left of `s` after removing white
   * space at both ends. It is empty exactly when `s` is blank.
   */
  function TrimSpace(s: string): (r: string)
    ensures r == [] <==> IsBlank(s)
    ensures r != [] ==> !IsSpace(r[0]) && !IsSpace(r[|r| - 1])
  {
    TrimSpaceShape(s);
    TrimTrailingSpace(TrimLeadingSpace(s))
  }

  lemma TrimSpaceShape(s: string)
    ensures var r := TrimTrailingSpace(TrimLeadingSpace(s));
      (r == [] <==> IsBlank(s)) && (r != [] ==> !IsSpace(r[0]) && !IsSpace(r[|r| - 1]))
  {
    var left := TrimLeadingSpace(s);
    LeadingBlank(s);
    LeadingStartsWithNonSpace(s);
    TrailingBlank(left);
    if left != [] {
      TrailingKeepsHead(left);
    }
    TrailingEndsWithNonSpace(left);
  }

  lemma {:induction false} LeadingBlank(s: string)
    ensures TrimLeadingSpace(s) == [] <==> IsBlank(s)
    decreases |s|
  {
    if s != [] && IsSpace(s[0]) {
      LeadingBlank(s[1..]);
      assert IsBlank(s) <==> IsBlank(s[1..]) by {
        if IsBlank(s[1..]) {
          forall k | 0 <= k < |s| ensures IsSpace(s[k]) {
            if k > 0 { assert s[k] == s[1..][k - 1]; }
          }
        }
      }
    }
  }

  lemma {:induction false} LeadingStartsWithNonSpace(s: string)
    ensures TrimLeadingSpace(s) != [] ==> !IsSpace(TrimLeadingSpace(s)[0])
    decreases |s|
  {
    if s != [] && IsSpace(s[0]) {
      LeadingStartsWithNonSpace(s[1..]);
    }
  }

  lemma {:induction false} TrailingBlank(s: string)
    ensures TrimTrailingSpace(s) == [] <==> IsBlank(s)
    decreases |s|
  {
    if s != [] && IsSpace(s[|s| - 1]) {
      var init := s[..|s| - 1];
      TrailingBlank(init);
      assert IsBlank(s) <==> IsBlank(init) by {
        if IsBlank(init) {
          forall k | 0 <= k < |s| ensures IsSpace(s[k]) {
            if k < |s| - 1 { assert s[k] == init[k]; }
          }
        }
      }
    }
  }

  lemma {:induction false} TrailingEndsWithNonSpace(s: string)
    ensures TrimTrailingSpace(s) != [] ==> !IsSpace(TrimTrailingSpace(s)[|TrimTrailingSpace(s)| - 1])
    decreases |s|
  {
    if s != [] && IsSpace(s[|s| - 1]) {
      TrailingEndsWithNonSpace(s[..|s| - 1]);
    }
  }

  lemma {:induction false} TrailingKeepsHead(s: string)
    requires s != [] && !IsSpace(s[0])
    ensures TrimTrailingSpace(s) != [] && TrimTrailingSpace(s)[0] == s[0]
    decreases |s|
  {
    if IsSpace(s[|s| - 1]) {
      var init := s[..|s| - 1];
      assert |s| > 1;
      assert init[0] == s[0];
      TrailingKeepsHead(init);
    }
  }

  /** How many white-space characters `s` starts with. */
  function LeadingSpaceCount(s: string): (n: nat)
    ensures n <= |s|
    decreases |s|
  {
    if s != [] && IsSpace(s[0]) then 1 + LeadingSpaceCount(s[1..]) else 0
  }

  /** How many white-space characters `s` ends with. */
  function TrailingSpaceCount(s: string): (n: nat)
    ensures n <= |s|
    decreases |s|
  {
    if s != [] && IsSpace(s[|s| - 1]) then 1 + TrailingSpaceCount(s[..|s| - 1]) else 0
  }

  /** Trimming the front drops exactly a blank prefix. */
  lemma {:induction false} LeadingDropsBlankPrefix(s: string)
    ensures TrimLeadingSpace(s) == s[LeadingSpaceCount(s)..]
    ensures IsBlank(s[..LeadingSpaceCount(s)])
    decreases |s|
  {
    if s != [] && IsSpace(s[0]) {
      var t := s[1..];
      LeadingDropsBlankPrefix(t);
      var n := LeadingSpaceCount(t);
      assert t[n..] == s[n + 1..];
      var p := s[..n + 1];
      forall k | 0 <= k < |p| ensures IsSpace(p[k]) {
        if k > 0 { assert p[k] == t[..n][k - 1]; }
      }
    }
  }

  /** Trimming the back drops exactly a blank suffix. */
  lemma {:induction false} TrailingDropsBlankSuffix(s: string)
    ensures TrimTrailingSpace(s) == s[..|s| - TrailingSpaceCount(s)]
    ensures IsBlank(s[|s| - TrailingSpaceCount(s)..])
    decreases |s|
  {
    if s != [] && IsSpace(s[|s| - 1]) {
      var t := s[..|s| - 1];
      TrailingDropsBlankSuffix(t);
      var n := TrailingSpaceCount(t);
      assert t[..|t| - n] == s[..|s| - (n + 1)];
      var q := s[|s| - (n + 1)..];
      forall k | 0 <= k < |q| ensures IsSpace(q[k]) {
        if k < n { assert q[k] == t[|t| - n..][k]; }
      }
    }
  }

  /**
   * `TrimSpace(s)` is the part of `s` between a blank prefix and a blank
   * suffix; with its non-space ends this determines it completely.
   */
  lemma TrimSpaceIsBlankFramed(s: string)
    ensures var i := LeadingSpaceCount(s); var r := TrimSpace(s);
      && i + |r| <= |s| && r == s[i..i + |r|]
      && IsBlank(s[..i]) && IsBlank(s[i + |r|..])
  {
    var i := LeadingSpaceCount(s);
    var left := TrimLeadingSpace(s);
    LeadingDropsBlankPrefix(s);
    TrailingDropsBlankSuffix(left);
    var r := TrimSpace(s);
    assert r == left[..|left| - TrailingSpaceCount(left)];
    assert r == s[i..i + |r|];
    var tail := s[i + |r|..];
    assert tail == left[|left| - TrailingSpaceCount(left)..];
  }

  /** Trimming is idempotent: a trimmed string has nothing left to trim. */
  lemma TrimSpaceIdempotent(s: string)
    ensures TrimSpace(TrimSpace(s)) == TrimSpace(s)
  {
    var t := TrimSpace(s);
    TrimLeadingOfTrimmed(t);
    TrimTrailingOfTrimmed(t);
  }

  lemma TrimLeadingOfTrimmed(t: string)
    requires t == [] || !IsSpace(t[0])
    ensures TrimLeadingSpace(t) == t
  {
  }

  lemma TrimTrailingOfTrimmed(t: string)
    requires t == [] || !IsSpace(t[|t| - 1])
    ensures TrimTrailingSpace(t) == t
  {
  }

  /** A string `w` that a search can carry: non-empty and already trimmed. */
  predicate IsSearchable(w: string) {
    w != [] && TrimSpace(w) == w
  }

  lemma TrimmedIsSearchable(s: string)
    requires !IsBlank(s)
    ensures IsSearchable(TrimSpace(s))
  {
    TrimSpaceIdempotent(s);
  }

  lemma SearchableIsNotBlank(w: string)
    requires IsSearchable(w)
    ensures !IsBlank(w)
  {
  }

  /** Lower-cases one character; only the ASCII letters A-Z are mapped. */
  function LowerChar(c: char): char {
    if 'A' <= c <= 'Z' then (c as int + 32) as char else c
  }

  predicate IsUpper(c: char) {
    'A' <= c <= 'Z'
  }

  /**
   * `strings.ToLower`, restricted to ASCII letters: no capital is left,
   * each capital becomes the letter 32 code points above it, every other
   * character is kept, and the length does not change.
   */
  function ToLower(s: string): (r: string)
    ensures |r| == |s|
    ensures forall k :: 0 <= k < |r| ==> !IsUpper(r[k])
    ensures forall k :: 0 <= k < |s| && IsUpper(s[k]) ==> r[k] as int == s[k] as int + ('a' as int - 'A' as int)
    ensures forall k :: 0 <= k < |s| && !IsUpper(s[k]) ==> r[k] == s[k]
  {
    seq(|s|, k requires 0 <= k < |s| => LowerChar(s[k]))
  }

  /** Lower-casing twice is lower-casing once. */
  lemma ToLowerIdempotent(s: string)
    ensures ToLower(ToLower(s)) == ToLower(s)
  {
    var t := ToLower(s);
    var u := ToLower(t);
    assert forall k :: 0 <= k < |u| ==> u[k] == t[k];
  }

  /** Lower-casing neither creates nor removes white space. */
  lemma ToLowerKeepsBlankness(s: string)
    ensures IsBlank(ToLower(s)) <==> IsBlank(s)
    ensures TrimSpace(ToLower(s)) == [] <==> TrimSpace(s) == []
  {
    var t := ToLower(s);
    forall k | 0 <= k < |s| ensures IsSpace(t[k]) <==> IsSpace(s[k]) {
      if IsUpper(s[k]) {
        assert !IsSpace(s[k]) && !IsSpace(t[k]);
      }
    }
  }

  // ---- decimal rendering of integers (fmt's %d) ----

  predicate IsDigit(c: char) {
    '0' <= c <= '9'
  }

  predicate IsDecimal(s: string) {
    forall k :: 0 <= k < |s| ==> IsDigit(s[k])
  }

  /** A canonical decimal numeral: non-empty, no leading zero unless it is "0". */
  predicate IsCanonicalDecimal(s: string) {
    s != [] && IsDecimal(s) && (s[0] == '0' ==> |s| == 1)
  }

  function DigitChar(d: nat): (c: char)
    requires d < 10
    ensures IsDigit(c)
  {
    ('0' as int + d) as char
  }

  function DigitValue(c: char): (d: nat)
    requires IsDigit(c)
    ensures d < 10
  {
    c as int - '0' as int
  }

  /** The decimal numeral of `n`, most significant digit first. */
  function NatToDecimal(n: nat): (r: string)
    ensures IsCanonicalDecimal(r)
    decreases n
  {
    if n < 10 then [DigitChar(n)] else NatToDecimal(n / 10) + [DigitChar(n % 10)]
  }

  /** The value a decimal numeral denotes. */
  function DecimalValue(s: string): nat
    requires IsDecimal(s)
  {
    if s == [] then 0 else DecimalValue(s[..|s| - 1]) * 10 + DigitValue(s[|s| - 1])
  }

  /** Reading back a rendered number gives the number. */
  lemma {:induction false} DecimalRoundTrip(n: nat)
    ensures DecimalValue(NatToDecimal(n)) == n
    decreases n
  {
    var r := NatToDecimal(n);
    if n >= 10 {
      DecimalRoundTrip(n / 10);
      assert r[..|r| - 1] == NatToDecimal(n / 10);
    }
  }

  lemma {:induction false} LeadingDigitPositive(s: string)
    requires IsCanonicalDecimal(s) && s[0] != '0'
    ensures DecimalValue(s) >= 1
    decreases |s|
  {
    if |s| > 1 {
      var p := s[..|s| - 1];
      assert p[0] == s[0];
      LeadingDigitPositive(p);
    } else {
      assert DecimalValue(s) == DecimalValue([]) * 10 + DigitValue(s[0]);
    }
  }

  /** Every canonical numeral is the rendering of its value, so rendering is a bijection. */
  lemma {:induction false} DecimalCanonical(s: string)
    requires IsCanonicalDecimal(s)
    ensures NatToDecimal(DecimalValue(s)) == s
    decreases |s|
  {
    var p := s[..|s| - 1];
    var d := DigitValue(s[|s| - 1]);
    if |s| == 1 {
      assert p == [];
      assert DigitChar(d) == s[0];
    } else {
      assert p[0] == s[0];
      LeadingDigitPositive(p);
      DecimalCanonical(p);
      var n := DecimalValue(s);
      assert n == DecimalValue(p) * 10 + d;
      assert n / 10 == DecimalValue(p) && n % 10 == d;
      assert DigitChar(d) == s[|s| - 1];
      assert s == p + [s[|s| - 1]];
    }
  }

  /**
   * fmt's `%d` for a signed integer: a minus sign exactly for negative
   * values, followed by the canonical numeral of the magnitude.
   */
  function IntToDecimal(i: int): (r: string)
    ensures r != [] && (r[0] == '-' <==> i < 0)
    ensures i >= 0 ==> IsCanonicalDecimal(r) && DecimalValue(r) == i
    ensures i < 0 ==> IsCanonicalDecimal(r[1..]) && DecimalValue(r[1..]) == -i
  {
    DecimalRoundTrip(if i < 0 then -i else i);
    if i < 0 then
      var digits := NatToDecimal(-i);
      assert ("-" + digits)[1..] == digits;
      "-" + digits
    else NatToDecimal(i)
  }

  /** Different integers render differently. */
  lemma IntToDecimalInjective(i: int, j: int)
    requires IntToDecimal(i) == IntToDecimal(j)
    ensures i == j
  {
  }
}
