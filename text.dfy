/**
 * Strings as the Go code sees them: ASCII case folding (the model's stand-in for
 * strings.ToLower / strings.ToUpper), Go's byte-wise string order (the order that
 * url.Values.Encode sorts keys by), substring search (strings.Contains) and the
 * decimal rendering of integers that fmt.Sprint produces.
 */
module Text {

  // ---------------------------------------------------------------------------
  // ASCII case folding

  predicate IsUpperLetter(c: char) { 'A' <= c <= 'Z' }
  predicate IsLowerLetter(c: char) { 'a' <= c <= 'z' }

  function LowerChar(c: char): char
  {
    if IsUpperLetter(c) then (c as int + 32) as char else c
  }

  function UpperChar(c: char): char
  {
    if IsLowerLetter(c) then (c as int - 32) as char else c
  }

  /** strings.ToLower restricted to ASCII letters. */
  function ToLower(s: string): (r: string)
    ensures |r| == |s|
    ensures forall i :: 0 <= i < |s| ==> r[i] == LowerChar(s[i])
  {
    seq(|s|, i requires 0 <= i < |s| => LowerChar(s[i]))
  }

  /** strings.ToUpper restricted to ASCII letters. */
  function ToUpper(s: string): (r: string)
    ensures |r| == |s|
    ensures forall i :: 0 <= i < |s| ==> r[i] == UpperChar(s[i])
  {
    seq(|s|, i requires 0 <= i < |s| => UpperChar(s[i]))
  }

  /**
   * Reference notion of "the same letter up to ASCII case", stated without the
   * folding functions: equal, or the two ASCII spellings of one letter.
   */
  predicate SameIgnoringCase(x: char, y: char)
  {
    x == y
    || (IsLowerLetter(x) && y as int == x as int - 32)
    || (IsUpperLetter(x) && y as int == x as int + 32)
  }

  /** Two strings that differ at most in the ASCII case of their letters. */
  predicate EqualIgnoringCase(a: string, b: string)
  {
    |a| == |b| && forall i :: 0 <= i < |a| ==> SameIgnoringCase(a[i], b[i])
  }

  /** A string already in lower case (every listed value of a lower-casing validator). */
  predicate IsLowerCase(s: string) { forall c :: c in s ==> !IsUpperLetter(c) }

  /** A string already in upper case (every listed value of an upper-casing validator). */
  predicate IsUpperCase(s: string) { forall c :: c in s ==> !IsLowerLetter(c) }

  lemma LowerMatchesIgnoringCase(s: string, n: string)
    requires IsLowerCase(n)
    ensures ToLower(s) == n <==> EqualIgnoringCase(s, n)
  {
    if ToLower(s) == n {
      forall i | 0 <= i < |s| ensures SameIgnoringCase(s[i], n[i]) {
        assert n[i] == LowerChar(s[i]);
      }
    }
    if EqualIgnoringCase(s, n) {
      forall i | 0 <= i < |s| ensures ToLower(s)[i] == n[i] {
        assert SameIgnoringCase(s[i], n[i]);
        assert n[i] in n;
      }
    }
  }

  lemma UpperMatchesIgnoringCase(s: string, n: string)
    requires IsUpperCase(n)
    ensures ToUpper(s) == n <==> EqualIgnoringCase(s, n)
  {
    if ToUpper(s) == n {
      forall i | 0 <= i < |s| ensures SameIgnoringCase(s[i], n[i]) {
        assert n[i] == UpperChar(s[i]);
      }
    }
    if EqualIgnoringCase(s, n) {
      forall i | 0 <= i < |s| ensures ToUpper(s)[i] == n[i] {
        assert SameIgnoringCase(s[i], n[i]);
        assert n[i] in n;
      }
    }
  }

  /**
   * A `switch strings.ToLower(s)` over lower-case labels accepts exactly the
   * strings equal, up to ASCII case, to one of its labels.
   */
  lemma LowerSwitch(s: string, labels: set<string>)
    requires forall n :: n in labels ==> IsLowerCase(n)
    ensures ToLower(s) in labels <==> exists n :: n in labels && EqualIgnoringCase(s, n)
  {
    if ToLower(s) in labels {
      LowerMatchesIgnoringCase(s, ToLower(s));
    }
    forall n | n in labels && EqualIgnoringCase(s, n) ensures ToLower(s) in labels {
      LowerMatchesIgnoringCase(s, n);
    }
  }

  /** The same for a `switch strings.ToUpper(s)` over upper-case labels. */
  lemma UpperSwitch(s: string, labels: set<string>)
    requires forall n :: n in labels ==> IsUpperCase(n)
    ensures ToUpper(s) in labels <==> exists n :: n in labels && EqualIgnoringCase(s, n)
  {
    if ToUpper(s) in labels {
      UpperMatchesIgnoringCase(s, ToUpper(s));
    }
    forall n | n in labels && EqualIgnoringCase(s, n) ensures ToUpper(s) in labels {
      UpperMatchesIgnoringCase(s, n);
    }
  }

  // ---------------------------------------------------------------------------
  // Go's string order: lexicographic on characters (for Unicode scalar values this
  // is the same as Go's byte-wise order on their UTF-8 encodings)

  predicate Less(a: string, b: string)
  {
    if b == [] then false
    else if a == [] then true
    else if a[0] != b[0] then a[0] < b[0]
    else Less(a[1..], b[1..])
  }

  lemma LessIrreflexive(a: string)
    ensures !Less(a, a)
  {
    if a != [] { LessIrreflexive(a[1..]); }
  }

  lemma LessAsymmetric(a: string, b: string)
    ensures Less(a, b) ==> !Less(b, a)
  {
    if a != [] && b != [] && a[0] == b[0] { LessAsymmetric(a[1..], b[1..]); }
  }

  lemma LessTransitive(a: string, b: string, c: string)
    requires Less(a, b) && Less(b, c)
    ensures Less(a, c)
  {
    if a != [] && a[0] == b[0] && b[0] == c[0] { LessTransitive(a[1..], b[1..], c[1..]); }
  }

  lemma LessTotal(a: string, b: string)
    ensures a == b || Less(a, b) || Less(b, a)
  {
    if a != [] && b != [] && a[0] == b[0] {
      LessTotal(a[1..], b[1..]);
      if a[1..] == b[1..] { assert a == [a[0]] + a[1..] && b == [b[0]] + b[1..]; }
    }
  }

  /** "Not after": the order that sorted sequences are non-decreasing in. */
  predicate NotAfter(a: string, b: string) { !Less(b, a) }

  lemma NotAfterTransitive(a: string, b: string, c: string)
    requires NotAfter(a, b) && NotAfter(b, c)
    ensures NotAfter(a, c)
  {
    if Less(c, a) {
      LessTotal(a, b);
      if Less(a, b) { LessTransitive(c, a, b); }
    }
  }

  /** Comparing two strings whose first parts have the same length. */
  lemma {:induction false} LessConcat(a: string, b: string, c: string, d: string)
    requires |a| == |c|
    ensures Less(a + b, c + d) <==> Less(a, c) || (a == c && Less(b, d))
  {
    if a == [] {
      assert a + b == b && c + d == d;
    } else {
      assert (a + b)[0] == a[0] && (c + d)[0] == c[0];
      assert (a + b)[1..] == a[1..] + b && (c + d)[1..] == c[1..] + d;
      LessConcat(a[1..], b, c[1..], d);
      if a[0] == c[0] && a[1..] == c[1..] { assert a == c; }
      if a == c { assert a[1..] == c[1..]; }
    }
  }

  // ---------------------------------------------------------------------------
  // Substrings (strings.Contains)

  function Contains(s: string, sub: string): bool
    decreases |s|
  {
    if |sub| > |s| then false
    else s[..|sub|] == sub || Contains(s[1..], sub)
  }

  predicate OccursAt(s: string, sub: string, i: int)
  {
    0 <= i && i + |sub| <= |s| && s[i..i + |sub|] == sub
  }

  lemma {:induction false} ContainsIffOccurs(s: string, sub: string)
    ensures Contains(s, sub) <==> exists i :: OccursAt(s, sub, i)
    decreases |s|
  {
    if |sub| > |s| {
    } else if s[..|sub|] == sub {
      assert OccursAt(s, sub, 0);
    } else {
      ContainsIffOccurs(s[1..], sub);
      if Contains(s[1..], sub) {
        var i :| OccursAt(s[1..], sub, i);
        assert s[1..][i..i + |sub|] == s[i + 1..i + 1 + |sub|];
        assert OccursAt(s, sub, i + 1);
      }
      forall i | OccursAt(s, sub, i) ensures Contains(s[1..], sub) {
        assert i != 0;
        assert s[1..][i - 1..i - 1 + |sub|] == s[i..i + |sub|];
        assert OccursAt(s[1..], sub, i - 1);
      }
    }
  }

  lemma ContainsMiddle(p: string, x: string, q: string)
    ensures Contains(p + x + q, x)
  {
    var s := p + x + q;
    assert s[|p|..|p| + |x|] == x;
    assert OccursAt(s, x, |p|);
    ContainsIffOccurs(s, x);
  }

  // ---------------------------------------------------------------------------
  // Decimal digits (fmt.Sprint of an int, and the digit fields of a date)

  predicate IsDigit(c: char) { '0' <= c <= '9' }

  predicate AllDigits(s: string) { forall i :: 0 <= i < |s| ==> IsDigit(s[i]) }

  function DigitValue(c: char): nat
    requires IsDigit(c)
  {
    c as int - '0' as int
  }

  function DigitChar(d: nat): (c: char)
    requires d < 10
    ensures IsDigit(c) && DigitValue(c) == d
  {
    ('0' as int + d) as char
  }

  function Pow10(n: nat): (r: nat)
    ensures r >= 1
  {
    if n == 0 then 1 else 10 * Pow10(n - 1)
  }

  /** The number a string of decimal digits denotes, most significant digit first. */
  function DigitsValue(s: string): nat
    requires AllDigits(s)
  {
    if s == [] then 0 else DigitValue(s[0]) * Pow10(|s| - 1) + DigitsValue(s[1..])
  }

  /** x * p grows with x (kept apart so that the solver sees one product at a time). */
  lemma MulMonotone(x: nat, y: nat, p: nat)
    requires x <= y
    ensures x * p <= y * p
  {
    assert y * p == x * p + (y - x) * p;
  }

  lemma {:induction false} DigitsValueBound(s: string)
    requires AllDigits(s)
    ensures DigitsValue(s) < Pow10(|s|)
  {
    if s != [] {
      var p := Pow10(|s| - 1);
      DigitsValueBound(s[1..]);
      MulMonotone(DigitValue(s[0]), 9, p);
      assert Pow10(|s|) == 10 * p;
    }
  }

  /** Shifting a leading digit and the digits after it one place left. */
  lemma ShiftDigits(x: nat, p: nat, r: nat)
    ensures x * (10 * p) + r * 10 == (x * p + r) * 10
  {
    assert x * (10 * p) == (x * p) * 10;
  }

  /** Appending a digit multiplies by ten and adds it. */
  lemma {:induction false} DigitsValueSnoc(s: string, c: char)
    requires AllDigits(s) && IsDigit(c)
    ensures AllDigits(s + [c]) && DigitsValue(s + [c]) == DigitsValue(s) * 10 + DigitValue(c)
  {
    assert AllDigits(s + [c]);
    if s != [] {
      var x, p := DigitValue(s[0]), Pow10(|s| - 1);
      assert (s + [c])[0] == s[0];
      assert (s + [c])[1..] == s[1..] + [c];
      DigitsValueSnoc(s[1..], c);
      assert Pow10(|s + [c]| - 1) == 10 * p;
      ShiftDigits(x, p, DigitsValue(s[1..]));
    } else {
      assert [c][1..] == [];
    }
  }

  /** A smaller leading digit gives a smaller number, whatever the lower digits. */
  lemma LeadingDigitDecides(x: nat, y: nat, p: nat, ra: nat, rb: nat)
    requires x < y && ra < p && rb < p
    ensures x * p + ra < y * p + rb
  {
    MulMonotone(x + 1, y, p);
    assert (x + 1) * p == x * p + p;
  }

  /** Of two digit strings of one length, the one with the smaller leading digit is smaller. */
  lemma LeadingDigitOrder(a: string, b: string)
    requires AllDigits(a) && AllDigits(b) && |a| == |b| && a != [] && a[0] < b[0]
    ensures DigitsValue(a) < DigitsValue(b)
  {
    DigitsValueBound(a[1..]);
    DigitsValueBound(b[1..]);
    LeadingDigitDecides(DigitValue(a[0]), DigitValue(b[0]), Pow10(|a| - 1), DigitsValue(a[1..]), DigitsValue(b[1..]));
  }

  /**
   * On digit strings of one length, Go's string order is the numeric order:
   * this is what lets a fixed-width date be compared as text.
   */
  lemma {:induction false} DigitsLessIsNumericLess(a: string, b: string)
    requires AllDigits(a) && AllDigits(b) && |a| == |b|
    ensures Less(a, b) <==> DigitsValue(a) < DigitsValue(b)
  {
    if a != [] {
      if a[0] < b[0] {
        LeadingDigitOrder(a, b);
      } else if b[0] < a[0] {
        LeadingDigitOrder(b, a);
      } else {
        var head := DigitValue(a[0]) * Pow10(|a| - 1);
        assert DigitsValue(a) == head + DigitsValue(a[1..]);
        assert DigitsValue(b) == head + DigitsValue(b[1..]);
        DigitsLessIsNumericLess(a[1..], b[1..]);
      }
    }
  }

  /** Digit strings of one length are equal exactly when their values are. */
  lemma DigitsEqualIsNumericEqual(a: string, b: string)
    requires AllDigits(a) && AllDigits(b) && |a| == |b|
    ensures a == b <==> DigitsValue(a) == DigitsValue(b)
  {
    LessTotal(a, b);
    DigitsLessIsNumericLess(a, b);
    DigitsLessIsNumericLess(b, a);
  }

  /** The last w decimal digits of n, zero-padded to width w (the "2006", "01" and "02" of a time layout). */
  function FixedDigits(n: nat, w: nat): (r: string)
    ensures |r| == w && AllDigits(r)
  {
    if w == 0 then [] else FixedDigits(n / 10, w - 1) + [DigitChar(n % 10)]
  }

  /** A number that fits in w digits reads back from its padded rendering. */
  lemma {:induction false} FixedDigitsValue(n: nat, w: nat)
    requires n < Pow10(w)
    ensures DigitsValue(FixedDigits(n, w)) == n
  {
    if w > 0 {
      assert n / 10 < Pow10(w - 1);
      FixedDigitsValue(n / 10, w - 1);
      DigitsValueSnoc(FixedDigits(n / 10, w - 1), DigitChar(n % 10));
    }
  }

  /** A digit string is the padded rendering of its own value at its own width. */
  lemma {:induction false} FixedDigitsOfValue(s: string)
    requires AllDigits(s)
    ensures FixedDigits(DigitsValue(s), |s|) == s
  {
    if s != [] {
      var init, c := s[..|s| - 1], s[|s| - 1];
      assert s == init + [c];
      DigitsValueSnoc(init, c);
      var v := DigitsValue(s);
      assert v / 10 == DigitsValue(init) && v % 10 == DigitValue(c);
      FixedDigitsOfValue(init);
      assert DigitChar(DigitValue(c)) == c;
    }
  }

  /** fmt.Sprint of a non-negative int: its decimal digits, without leading zeros. */
  function NatToString(n: nat): (r: string)
    ensures |r| > 0 && AllDigits(r)
    ensures |r| > 1 ==> r[0] != '0'
  {
    if n < 10 then [DigitChar(n)] else NatToString(n / 10) + [DigitChar(n % 10)]
  }

  /** fmt.Sprint of an int: a '-' before the digits of a negative number. */
  function IntToString(i: int): (r: string)
    ensures |r| > 0
  {
    if i < 0 then "-" + NatToString(-i) else NatToString(i)
  }

  /** Reading the digits back gives the number: the rendering loses nothing. */
  lemma {:induction false} NatToStringRoundTrip(n: nat)
    ensures DigitsValue(NatToString(n)) == n
  {
    if n < 10 {
      assert NatToString(n) == [DigitChar(n)];
      assert [DigitChar(n)][1..] == [];
    } else {
      NatToStringRoundTrip(n / 10);
      DigitsValueSnoc(NatToString(n / 10), DigitChar(n % 10));
    }
  }

  /** The rendering starts with '-' exactly for a negative number. */
  lemma SignShows(i: int)
    ensures IntToString(i)[0] == '-' <==> i < 0
  {
    if i >= 0 {
      assert IsDigit(NatToString(i)[0]);
    }
  }

  /** Distinct ints render differently, so a rendered value identifies the int. */
  lemma IntToStringInjective(i: int, j: int)
    requires IntToString(i) == IntToString(j)
    ensures i == j
  {
    SignShows(i);
    SignShows(j);
    if i < 0 && j < 0 {
      assert NatToString(-i) == IntToString(i)[1..] == IntToString(j)[1..] == NatToString(-j);
      NatToStringRoundTrip(-i);
      NatToStringRoundTrip(-j);
    } else if i >= 0 && j >= 0 {
      NatToStringRoundTrip(i);
      NatToStringRoundTrip(j);
    }
  }
}
