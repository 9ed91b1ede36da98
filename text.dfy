/**
 * Decimal text as the Python runtime reads and writes it: str(n) of a natural
 * number, zero-padded fields, str.replace(old, ""), str.strip() and int(text).
 */
module Text {
  import opened Outcomes

  predicate IsDigit(c: char) { '0' <= c <= '9' }

  predicate AllDigits(s: string) { forall i :: 0 <= i < |s| ==> IsDigit(s[i]) }

  function DigitValue(c: char): (n: nat)
    requires IsDigit(c)
    ensures n < 10
  {
    c as int - '0' as int
  }

  function DigitChar(n: nat): (c: char)
    requires n < 10
    ensures IsDigit(c) && DigitValue(c) == n
  {
    ('0' as int + n) as char
  }

  function Pow10(k: nat): (p: nat)
    ensures p >= 1
  {
    if k == 0 then 1 else 10 * Pow10(k - 1)
  }

  /** The number a string of decimal digits denotes; leading zeros are allowed, as in int(). */
  function DigitsValue(s: string): nat
    requires AllDigits(s)
  {
    if s == [] then 0 else DigitsValue(s[..|s| - 1]) * 10 + DigitValue(s[|s| - 1])
  }

  /** str(n) for n >= 0: the shortest decimal representation, no leading zero. */
  function NatToString(n: nat): (s: string)
    ensures |s| >= 1 && AllDigits(s)
    ensures s[0] == '0' ==> n == 0 && |s| == 1
  {
    if n < 10 then [DigitChar(n)] else NatToString(n / 10) + [DigitChar(n % 10)]
  }

  /** strftime's zero-padded field of the given width (%m, %d, %H, %Y, ...). */
  function ZeroPad(n: nat, width: nat): (s: string)
    requires n < Pow10(width)
    ensures |s| == width && AllDigits(s) && DigitsValue(s) == n
  {
    if width == 0 then ""
    else
      var s := ZeroPad(n / 10, width - 1) + [DigitChar(n % 10)];
      assert s[..|s| - 1] == ZeroPad(n / 10, width - 1);
      s
  }

  lemma {:induction false} DigitsValueOfNatToString(n: nat)
    ensures DigitsValue(NatToString(n)) == n
  {
    if n >= 10 {
      var s := NatToString(n);
      assert s[..|s| - 1] == NatToString(n / 10);
      DigitsValueOfNatToString(n / 10);
    }
  }

  /** Different numbers print differently: the printed form can be read back. */
  lemma NatToStringInjective(m: nat, n: nat)
    requires NatToString(m) == NatToString(n)
    ensures m == n
  {
    DigitsValueOfNatToString(m);
    DigitsValueOfNatToString(n);
  }

  lemma {:induction false} DigitsValueAppend(a: string, b: string)
    requires AllDigits(a) && AllDigits(b)
    ensures AllDigits(a + b)
    ensures DigitsValue(a + b) == DigitsValue(a) * Pow10(|b|) + DigitsValue(b)
  {
    AllDigitsAppend(a, b);
    if b == [] {
      assert a + b == a;
    } else {
      var b' := b[..|b| - 1];
      var d := DigitValue(b[|b| - 1]);
      DigitsValueAppend(a, b');
      assert DigitsValue(a + b) == DigitsValue(a + b') * 10 + d by {
        var ab := a + b;
        assert ab[..|ab| - 1] == a + b';
        assert ab[|ab| - 1] == b[|b| - 1];
      }
      assert DigitsValue(b) == DigitsValue(b') * 10 + d;
      assert Pow10(|b|) == 10 * Pow10(|b'|);
      MulAddStep(DigitsValue(a), Pow10(|b'|), DigitsValue(b'), d);
    }
  }

  lemma AllDigitsAppend(a: string, b: string)
    requires AllDigits(a) && AllDigits(b)
    ensures AllDigits(a + b)
  {
    forall i | 0 <= i < |a + b| ensures IsDigit((a + b)[i]) {
      if i < |a| { assert (a + b)[i] == a[i]; } else { assert (a + b)[i] == b[i - |a|]; }
    }
  }

  lemma MulAddStep(va: nat, p: nat, vb: nat, d: nat)
    ensures (va * p + vb) * 10 + d == va * (10 * p) + (vb * 10 + d)
  {
  }

  /** The length of the run of digits a text starts with. */
  function LeadingDigits(s: string): (n: nat)
    ensures n <= |s| && AllDigits(s[..n])
    ensures n < |s| ==> !IsDigit(s[n])
  {
    if s == [] || !IsDigit(s[0]) then 0
    else
      var n := 1 + LeadingDigits(s[1..]);
      assert s[..n] == [s[0]] + s[1..][..n - 1];
      n
  }

  lemma {:induction false} LeadingDigitsOf(a: string, x: string)
    requires AllDigits(a) && |x| > 0 && !IsDigit(x[0])
    ensures LeadingDigits(a + x) == |a|
  {
    if a == [] {
      assert a + x == x;
    } else {
      assert (a + x)[0] == a[0];
      assert (a + x)[1..] == a[1..] + x;
      LeadingDigitsOf(a[1..], x);
    }
  }

  /** A text that starts with a run of digits ended by a non-digit splits there in one way only. */
  lemma DigitPrefixUnique(a: string, b: string, x: string, y: string)
    requires AllDigits(a) && AllDigits(b) && a + x == b + y
    requires |x| > 0 && !IsDigit(x[0]) && |y| > 0 && !IsDigit(y[0])
    ensures a == b && x == y
  {
    LeadingDigitsOf(a, x);
    LeadingDigitsOf(b, y);
    assert a == (a + x)[..|a|];
    assert b == (b + y)[..|b|];
    assert x == (a + x)[|a|..];
    assert y == (b + y)[|b|..];
  }

  // ---------------------------------------------------------------------------
  // str.replace(pattern, "")

  /** s.replace(pat, ""): every leftmost, non-overlapping occurrence of pat is removed. */
  function RemoveAll(s: string, pat: string): (r: string)
    requires |pat| > 0
    ensures |r| <= |s|
    decreases |s|
  {
    if |s| < |pat| then s
    else if s[..|pat|] == pat then RemoveAll(s[|pat|..], pat)
    else [s[0]] + RemoveAll(s[1..], pat)
  }

  /** Independent definition of deleting one character everywhere. */
  function Filter(s: string, c: char): (r: string)
    ensures forall i :: 0 <= i < |r| ==> r[i] != c
  {
    if s == [] then [] else (if s[0] == c then [] else [s[0]]) + Filter(s[1..], c)
  }

  lemma {:induction false} RemoveCharIsFilter(s: string, c: char)
    ensures RemoveAll(s, [c]) == Filter(s, c)
  {
    if s != [] {
      RemoveCharIsFilter(s[1..], c);
      if s[..1] == [c] {
        assert s[0] == c;
      } else {
        assert s[0] != c;
      }
    }
  }

  lemma {:induction false} FilterAppend(a: string, b: string, c: char)
    ensures Filter(a + b, c) == Filter(a, c) + Filter(b, c)
  {
    if a == [] {
      assert a + b == b;
    } else {
      assert (a + b)[1..] == a[1..] + b;
      FilterAppend(a[1..], b, c);
    }
  }

  lemma {:induction false} FilterAbsent(s: string, c: char)
    requires forall i :: 0 <= i < |s| ==> s[i] != c
    ensures Filter(s, c) == s
  {
    if s != [] {
      FilterAbsent(s[1..], c);
    }
  }

  /** A text that never contains the first character of the pattern is left unchanged. */
  lemma {:induction false} RemoveAllAbsent(s: string, pat: string)
    requires |pat| > 0
    requires forall i :: 0 <= i < |s| ==> s[i] != pat[0]
    ensures RemoveAll(s, pat) == s
  {
    if |s| >= |pat| {
      assert s[..|pat|][0] == s[0];
      RemoveAllAbsent(s[1..], pat);
      assert [s[0]] + s[1..] == s;
    }
  }

  /** A leading occurrence of the pattern is removed and scanning resumes after it. */
  lemma RemoveAllLeading(pat: string, s: string)
    requires |pat| > 0
    ensures RemoveAll(pat + s, pat) == RemoveAll(s, pat)
  {
    var t := pat + s;
    assert t[..|pat|] == pat;
    assert t[|pat|..] == s;
  }

  /** The pattern occurs in s starting at position i. */
  predicate OccursAt(s: string, pat: string, i: int)
  {
    0 <= i && i + |pat| <= |s| && s[i..i + |pat|] == pat
  }

  /** Without an occurrence at the start, the first character is kept and scanning moves on. */
  lemma RemoveAllKeepsFirst(t: string, pat: string)
    requires |pat| > 0 && |t| > 0 && !OccursAt(t, pat, 0)
    ensures RemoveAll(t, pat) == [t[0]] + RemoveAll(t[1..], pat)
  {
    if |t| >= |pat| {
      assert t[..|pat|] == t[0..|pat|];
    }
  }

  /** No occurrence starts in a non-empty a, so none starts in what follows its first character. */
  lemma NoOccurrenceAfterFirst(a: string, pat: string, b: string)
    requires |a| > 0
    requires forall i :: 0 <= i < |a| ==> !OccursAt(a + pat + b, pat, i)
    ensures forall i :: 0 <= i < |a[1..]| ==> !OccursAt(a[1..] + pat + b, pat, i)
  {
    var t := a + pat + b;
    assert t[1..] == a[1..] + pat + b;
    forall i | 0 <= i < |a[1..]|
      ensures !OccursAt(a[1..] + pat + b, pat, i)
    {
      assert !OccursAt(t, pat, i + 1);
      if i + |pat| <= |t| - 1 {
        assert t[1..][i..i + |pat|] == t[i + 1..i + 1 + |pat|];
      }
    }
  }

  /**
   * The leftmost occurrence of the pattern, wherever it stands, is removed: the
   * text before it is kept and scanning resumes after it.
   */
  lemma {:induction false} RemoveAllFirst(a: string, pat: string, b: string)
    requires |pat| > 0
    requires forall i :: 0 <= i < |a| ==> !OccursAt(a + pat + b, pat, i)
    ensures RemoveAll(a + pat + b, pat) == a + RemoveAll(b, pat)
    decreases |a|
  {
    if a == [] {
      assert a + pat + b == pat + b;
      RemoveAllLeading(pat, b);
    } else {
      var t := a + pat + b;
      assert !OccursAt(t, pat, 0);
      RemoveAllKeepsFirst(t, pat);
      NoOccurrenceAfterFirst(a, pat, b);
      RemoveAllFirst(a[1..], pat, b);
      assert t[1..] == a[1..] + pat + b && t[0] == a[0];
      KeptFirstJoin(a, RemoveAll(b, pat));
    }
  }

  /** The first character of a, in front of the rest of a and r, gives a + r. */
  lemma KeptFirstJoin(a: string, r: string)
    requires |a| > 0
    ensures [a[0]] + (a[1..] + r) == a + r
  {
    assert a == [a[0]] + a[1..];
  }

  /** A text in which the pattern does not occur is left unchanged. */
  lemma {:induction false} RemoveAllNoMatch(s: string, pat: string)
    requires |pat| > 0
    requires forall i :: 0 <= i < |s| ==> !OccursAt(s, pat, i)
    ensures RemoveAll(s, pat) == s
    decreases |s|
  {
    if |s| >= |pat| {
      assert !OccursAt(s, pat, 0);
      assert s[..|pat|] == s[0..|pat|];
      forall i | 0 <= i < |s[1..]|
        ensures !OccursAt(s[1..], pat, i)
      {
        assert !OccursAt(s, pat, i + 1);
        if i + |pat| <= |s| - 1 {
          assert s[1..][i..i + |pat|] == s[i + 1..i + 1 + |pat|];
        }
      }
      RemoveAllNoMatch(s[1..], pat);
      assert [s[0]] + s[1..] == s;
    }
  }

  // ---------------------------------------------------------------------------
  // int(text)

  /**
   * The characters int() skips around a literal: the ASCII whitespace \t \n \v
   * \f \r and space, and every non-ASCII character str.isspace() accepts, which
   * int() first turns into a space. The ASCII separators U+001C..U+001F count
   * for str.isspace() but not here: int() keeps them, and they make it raise.
   */
  predicate IsSpace(c: char)
  {
    ('\t' <= c <= '\r') || c == ' ' || c == '\U{85}' ||
    c == '\U{a0}' || c == '\U{1680}' || ('\U{2000}' <= c <= '\U{200a}') ||
    c == '\U{2028}' || c == '\U{2029}' || c == '\U{202f}' || c == '\U{205f}' || c == '\U{3000}'
  }

  /** The whitespace int() skips before the literal is dropped, and nothing else. */
  function TrimStart(s: string): (r: string)
    ensures |r| <= |s| && r == s[|s| - |r|..]
    ensures forall i :: 0 <= i < |s| - |r| ==> IsSpace(s[i])
    ensures r == [] || !IsSpace(r[0])
  {
    if s != [] && IsSpace(s[0]) then TrimStart(s[1..]) else s
  }

  /** The whitespace int() skips after the literal is dropped, and nothing else. */
  function TrimEnd(s: string): (r: string)
    ensures |r| <= |s| && r == s[..|r|]
    ensures forall i :: |r| <= i < |s| ==> IsSpace(s[i])
    ensures r == [] || !IsSpace(r[|r| - 1])
  {
    if s != [] && IsSpace(s[|s| - 1]) then TrimEnd(s[..|s| - 1]) else s
  }

  function Strip(s: string): string
  {
    TrimEnd(TrimStart(s))
  }

  /** The digits of a base-10 int() literal: digits, single underscores only between digits. */
  predicate IsDigitGroups(b: string)
  {
    |b| > 0 && IsDigit(b[0]) && IsDigit(b[|b| - 1]) &&
    (forall i :: 0 <= i < |b| ==> IsDigit(b[i]) || b[i] == '_') &&
    NoDoubleUnderscore(b)
  }

  predicate NoDoubleUnderscore(b: string)
  {
    |b| < 2 || (!(b[0] == '_' && b[1] == '_') && NoDoubleUnderscore(b[1..]))
  }

  lemma {:induction false} DigitsHaveNoUnderscore(s: string)
    requires AllDigits(s)
    ensures NoDoubleUnderscore(s)
  {
    if |s| >= 2 {
      DigitsHaveNoUnderscore(s[1..]);
    }
  }

  function GroupsValue(b: string): (n: nat)
    requires IsDigitGroups(b)
  {
    var digits := Filter(b, '_');
    assert AllDigits(digits) by { FilterKeepsDigits(b); }
    DigitsValue(digits)
  }

  lemma {:induction false} FilterKeepsDigits(b: string)
    requires forall i :: 0 <= i < |b| ==> IsDigit(b[i]) || b[i] == '_'
    ensures AllDigits(Filter(b, '_'))
  {
    if b != [] {
      FilterKeepsDigits(b[1..]);
    }
  }

  /** int(text) with base 10; None where Python raises ValueError. */
  function ParseInt(text: string): Option<int>
  {
    ParseSigned(Strip(text))
  }

  /** An optional sign, then the digit groups. */
  function ParseSigned(t: string): Option<int>
  {
    if |t| > 0 && (t[0] == '+' || t[0] == '-') then
      if !IsDigitGroups(t[1..]) then None
      else if t[0] == '-' then Some(0 - GroupsValue(t[1..]))
      else Some(GroupsValue(t[1..]))
    else if IsDigitGroups(t) then Some(GroupsValue(t))
    else None
  }

  lemma {:induction false} TrimOfDigits(s: string)
    requires AllDigits(s)
    ensures TrimStart(s) == s && TrimEnd(s) == s
  {
  }

  /** A literal that starts with one of U+001C..U+001F is rejected: int() does not skip them. */
  lemma SeparatorRejected(c: char, s: string)
    requires '\U{1c}' <= c <= '\U{1f}'
    ensures ParseInt([c] + s) == None
  {
    var t := [c] + s;
    assert !IsSpace(t[0]);
    assert TrimStart(t) == t;
    var r := TrimEnd(t);
    assert |r| > 0;
    assert r[0] == c;
  }

  /** On a plain run of digits int() is exactly the digits' value. */
  lemma ParseIntOfDigits(s: string)
    requires |s| > 0 && AllDigits(s)
    ensures ParseInt(s) == Some(DigitsValue(s))
  {
    TrimOfDigits(s);
    DigitsHaveNoUnderscore(s);
    FilterAbsent(s, '_');
  }

  /** int(str(n)) == n */
  lemma ParseIntOfNatToString(n: nat)
    ensures ParseInt(NatToString(n)) == Some(n)
  {
    ParseIntOfDigits(NatToString(n));
    DigitsValueOfNatToString(n);
  }

  // ---------------------------------------------------------------------------
  // Amounts printed with thousands separators, as the mail and portal show them

  /** n printed with a ',' between each group of three digits ("1,234,567"). */
  function GroupThousands(n: nat): (s: string)
    ensures |s| >= 1 && IsDigit(s[0])
    ensures forall i :: 0 <= i < |s| ==> IsDigit(s[i]) || s[i] == ','
  {
    if n < 1000 then NatToString(n)
    else GroupThousands(n / 1000) + "," + ZeroPad(n % 1000, 3)
  }

  /** Deleting the separators leaves the digits of n. */
  lemma {:induction false} GroupThousandsDigits(n: nat)
    ensures AllDigits(Filter(GroupThousands(n), ','))
    ensures DigitsValue(Filter(GroupThousands(n), ',')) == n
  {
    if n < 1000 {
      FilterAbsent(NatToString(n), ',');
      DigitsValueOfNatToString(n);
    } else {
      var hi := GroupThousands(n / 1000);
      var lo := ZeroPad(n % 1000, 3);
      GroupThousandsDigits(n / 1000);
      var f := Filter(hi, ',');
      assert Filter(GroupThousands(n), ',') == f + lo by {
        assert GroupThousands(n) == (hi + ",") + lo;
        FilterAppend(hi + ",", lo, ',');
        FilterAppend(hi, ",", ',');
        FilterAbsent(lo, ',');
        assert Filter(",", ',') == [];
      }
      DigitsValueAppend(f, lo);
      assert Pow10(3) == 1000;
      assert DigitsValue(f + lo) == (n / 1000) * 1000 + n % 1000;
    }
  }
}
