/** The two pieces of Python string handling the normaliser relies on:
    `str.strip()` with no argument, and `int()` applied to a string. */
module Text {
  import opened Wrappers

  /** Python's `str.isspace` for one character: the ASCII controls TAB..CR,
      the separators 0x1C..0x1F, SPACE, NEL, NO-BREAK SPACE and the Unicode
      space separators. */
  predicate IsSpace(c: char)
  {
    var n := c as int;
    || 9 <= n <= 13
    || 28 <= n <= 32
    || n == 0x85 || n == 0xA0 || n == 0x1680
    || 0x2000 <= n <= 0x200A
    || n == 0x2028 || n == 0x2029 || n == 0x202F || n == 0x205F || n == 0x3000
  }

  predicate IsDigit(c: char)
  {
    '0' <= c <= '9'
  }

  function DigitValue(c: char): nat
    requires IsDigit(c)
  {
    c as int - '0' as int
  }

  /** The whitespace CPython's `int()` skips around a literal: the ASCII
      controls TAB..CR, SPACE, and every non-ASCII `isspace` character. The
      ASCII separators 0x1C..0x1F count as whitespace for `str.strip()` but
      not for `int()`. */
  predicate IsIntSpace(c: char)
  {
    IsSpace(c) && !(28 <= c as int <= 31)
  }

  /** The number of characters satisfying `sp` that `s` starts with. */
  function Leading(s: string, sp: char -> bool): (n: nat)
    ensures n <= |s|
    ensures forall i :: 0 <= i < n ==> sp(s[i])
    ensures n < |s| ==> !sp(s[n])
  {
    if |s| > 0 && sp(s[0]) then 1 + Leading(s[1..], sp) else 0
  }

  /** The length of `s` once its trailing characters satisfying `sp` are dropped. */
  function TrailingStart(s: string, sp: char -> bool): (n: nat)
    ensures n <= |s|
    ensures forall i :: n <= i < |s| ==> sp(s[i])
    ensures n > 0 ==> !sp(s[n - 1])
  {
    if |s| > 0 && sp(s[|s| - 1]) then TrailingStart(s[..|s| - 1], sp) else |s|
  }

  /** The slice of `s` between its leading and its trailing run of `sp`
      characters; it neither starts nor ends with one. */
  function Trim(s: string, sp: char -> bool): (r: string)
    ensures Leading(s, sp) + |r| <= |s|
    ensures r == s[Leading(s, sp)..Leading(s, sp) + |r|]
    ensures forall i :: Leading(s, sp) + |r| <= i < |s| ==> sp(s[i])
    ensures |r| > 0 ==> !sp(r[0]) && !sp(r[|r| - 1])
  {
    var a := Leading(s, sp);
    var t := s[a..];
    var r := t[..TrailingStart(t, sp)];
    assert forall i :: a + |r| <= i < |s| ==> sp(s[i]) by {
      forall i | a + |r| <= i < |s|
        ensures sp(s[i])
      {
        assert s[i] == t[i - a];
      }
    }
    r
  }

  /** `s.strip()`: the slice of `s` between its leading and its trailing
      whitespace; it neither starts nor ends with whitespace. */
  function Strip(s: string): (r: string)
    ensures Leading(s, IsSpace) + |r| <= |s|
    ensures r == s[Leading(s, IsSpace)..Leading(s, IsSpace) + |r|]
    ensures forall i :: Leading(s, IsSpace) + |r| <= i < |s| ==> IsSpace(s[i])
    ensures |r| > 0 ==> !IsSpace(r[0]) && !IsSpace(r[|r| - 1])
  {
    Trim(s, IsSpace)
  }

  /** The digit part of a base-10 Python integer literal as `int()` accepts it:
      ASCII digits, where an underscore may only stand between two digits. */
  predicate IsDigitGroup(t: string)
  {
    && |t| > 0
    && IsDigit(t[0])
    && IsDigit(t[|t| - 1])
    && (forall i :: 0 <= i < |t| ==> IsDigit(t[i]) || t[i] == '_')
    && (forall i :: 0 <= i < |t| - 1 && t[i] == '_' ==> t[i + 1] != '_')
  }

  /** The decimal value of the digits of `t`, underscores ignored. */
  function DigitsValue(t: string): nat
  {
    if |t| == 0 then 0
    else if IsDigit(t[|t| - 1]) then 10 * DigitsValue(t[..|t| - 1]) + DigitValue(t[|t| - 1])
    else DigitsValue(t[..|t| - 1])
  }

  /** `s` spells a base-10 integer as `int()` reads it: whitespace before
      index `a`, an optional sign `s[a..b]`, the digit group `s[b..e]`, and
      whitespace from `e` to the end. */
  predicate Spells(s: string, a: nat, b: nat, e: nat)
  {
    && a <= b <= e <= |s|
    && (forall i :: 0 <= i < a ==> IsIntSpace(s[i]))
    && (b == a || (b == a + 1 && (s[a] == '+' || s[a] == '-')))
    && IsDigitGroup(s[b..e])
    && (forall i :: e <= i < |s| ==> IsIntSpace(s[i]))
  }

  /** The number such a spelling denotes. */
  function Spelled(s: string, a: nat, b: nat, e: nat): int
    requires Spells(s, a, b, e)
  {
    var v: int := DigitsValue(s[b..e]);
    if b == a + 1 && s[a] == '-' then -v else v
  }

  /** A spelling is anchored at the ends of the trimmed string: its sign or
      first digit is the first non-whitespace character, and its last digit
      the last one. */
  lemma SpellingAnchored(s: string, a: nat, b: nat, e: nat)
    requires Spells(s, a, b, e)
    ensures a == Leading(s, IsIntSpace)
    ensures e == a + |Trim(s, IsIntSpace)|
  {
    var n := Leading(s, IsIntSpace);
    var t := Trim(s, IsIntSpace);
    assert !IsIntSpace(s[a]) by {
      if b == a {
        assert s[a] == s[b..e][0];
      }
    }
    assert !IsIntSpace(s[e - 1]) by {
      assert s[e - 1] == s[b..e][e - 1 - b];
    }
  }

  lemma AnchoredSpellings(s: string)
    ensures forall a: nat, b: nat, e: nat :: Spells(s, a, b, e) ==>
              a == Leading(s, IsIntSpace) && e == a + |Trim(s, IsIntSpace)|
  {
    forall a: nat, b: nat, e: nat | Spells(s, a, b, e)
      ensures a == Leading(s, IsIntSpace) && e == a + |Trim(s, IsIntSpace)|
    {
      SpellingAnchored(s, a, b, e);
    }
  }

  /** Python's `int(s)` for a string `s`: surrounding whitespace is ignored, an
      optional sign may precede the digits, and anything else is a ValueError,
      here `None`. The result is a number exactly when `s` spells one, and it
      is the number spelled. */
  function ParseInt(s: string): (r: Option<int>)
    ensures r.Some? ==> exists a: nat, b: nat, e: nat :: Spells(s, a, b, e) && r.value == Spelled(s, a, b, e)
    ensures forall a: nat, b: nat, e: nat :: Spells(s, a, b, e) ==> r == Some(Spelled(s, a, b, e))
  {
    var n := Leading(s, IsIntSpace);
    var t := Trim(s, IsIntSpace);
    AnchoredSpellings(s);
    assert s[n..n + |t|] == t;
    if |t| > 0 && (t[0] == '+' || t[0] == '-') then
      assert t[1..] == s[n + 1..n + |t|];
      if IsDigitGroup(t[1..]) then
        var v: int := DigitsValue(t[1..]);
        assert Spells(s, n, n + 1, n + |t|);
        Some(if t[0] == '-' then -v else v)
      else None
    else if IsDigitGroup(t) then
      assert Spells(s, n, n, n + |t|);
      Some(DigitsValue(t))
    else None
  }

  /** `s[:n]`: at most the first `n` characters. */
  function Prefix(s: string, n: nat): (r: string)
    ensures |r| == if |s| < n then |s| else n
    ensures r == s[..|r|]
  {
    if |s| < n then s else s[..n]
  }

  function Pow10(n: nat): nat
  {
    if n == 0 then 1 else 10 * Pow10(n - 1)
  }

  /** A string of `n` characters holds a value below 10^n. */
  lemma {:induction false} DigitsValueBound(t: string)
    ensures DigitsValue(t) < Pow10(|t|)
  {
    if |t| > 0 {
      DigitsValueBound(t[..|t| - 1]);
    }
  }

  /** A string that neither starts nor ends with an `sp` character is its own trim. */
  lemma TrimUnpadded(s: string, sp: char -> bool)
    requires |s| > 0 ==> !sp(s[0]) && !sp(s[|s| - 1])
    ensures Trim(s, sp) == s
  {
  }

  /** A string without whitespace at either end is its own strip. */
  lemma StripUnpadded(s: string)
    requires |s| > 0 ==> !IsSpace(s[0]) && !IsSpace(s[|s| - 1])
    ensures Strip(s) == s
  {
    TrimUnpadded(s, IsSpace);
  }

  /** Stripping is idempotent. */
  lemma StripIdempotent(s: string)
    ensures Strip(Strip(s)) == Strip(s)
  {
    StripUnpadded(Strip(s));
  }

  /** The value `int()` gives to four decimal digits. */
  function FourDigitValue(q: string): nat
    requires |q| == 4 && forall i :: 0 <= i < 4 ==> IsDigit(q[i])
  {
    1000 * DigitValue(q[0]) + 100 * DigitValue(q[1]) + 10 * DigitValue(q[2]) + DigitValue(q[3])
  }

  /** When the first four characters of `s` are decimal digits, `int(s[:4])`
      is their decimal value, which is at most 9999. */
  lemma FourDigitPrefix(s: string)
    requires |s| >= 4 && forall i :: 0 <= i < 4 ==> IsDigit(s[i])
    ensures ParseInt(Prefix(s, 4)) == Some(FourDigitValue(s[..4]))
    ensures FourDigitValue(s[..4]) <= 9999
  {
    var q := s[..4];
    assert Prefix(s, 4) == q;
    TrimUnpadded(q, IsIntSpace);
    assert IsDigitGroup(q);
    assert q[..1][..0] == [];
    assert q[..2][..1] == q[..1];
    assert q[..3][..2] == q[..2];
    assert q[..4][..3] == q[..3];
    assert DigitsValue(q[..1]) == DigitValue(q[0]);
    assert DigitsValue(q[..2]) == 10 * DigitValue(q[0]) + DigitValue(q[1]);
    assert DigitsValue(q[..3]) == 100 * DigitValue(q[0]) + 10 * DigitValue(q[1]) + DigitValue(q[2]);
    assert q[..4] == q;
  }

  /** Whatever `int(s[:4])` yields is a number between -999 and 9999. */
  lemma ParsedPrefixRange(s: string)
    ensures ParseInt(Prefix(s, 4)).Some? ==> -999 <= ParseInt(Prefix(s, 4)).value <= 9999
  {
    var t := Trim(Prefix(s, 4), IsIntSpace);
    if |t| > 0 && (t[0] == '+' || t[0] == '-') {
      DigitsValueBound(t[1..]);
      assert Pow10(3) == 1000;
      if |t[1..]| < 3 {
        PowMonotone(|t[1..]|, 3);
      }
    } else {
      DigitsValueBound(t);
      assert Pow10(4) == 10000;
      if |t| < 4 {
        PowMonotone(|t|, 4);
      }
    }
  }

  lemma {:induction false} PowMonotone(m: nat, n: nat)
    requires m <= n
    ensures Pow10(m) <= Pow10(n)
  {
    if m < n {
      PowMonotone(m, n - 1);
    }
  }

  /** A character that is neither `int()` whitespace, a digit, a sign nor an
      underscore makes `int()` fail, wherever it stands. */
  lemma ForeignCharacterRejected(s: string, j: int)
    requires 0 <= j < |s|
    requires !IsIntSpace(s[j]) && !IsDigit(s[j]) && s[j] != '+' && s[j] != '-' && s[j] != '_'
    ensures ParseInt(s) == None
  {
  }

  /** The period of the remote data set: "2019JJ00" gives the year 2019. */
  lemma PeriodExample()
    ensures ParseInt(Prefix("2019JJ00", 4)) == Some(2019)
  {
    var q := "2019JJ00"[..4];
    assert q == "2019";
    assert FourDigitValue(q) == 2019 by {
      assert DigitValue('2') == 2 && DigitValue('0') == 0 && DigitValue('1') == 1 && DigitValue('9') == 9;
    }
    FourDigitPrefix("2019JJ00");
  }

  /** A period without a numeric prefix is rejected. */
  lemma NonNumericPeriodExample()
    ensures ParseInt(Prefix("JJ2019", 4)) == None
  {
    assert Prefix("JJ2019", 4) == "JJ20";
    ForeignCharacterRejected("JJ20", 0);
  }

  /** An information separator is whitespace to `strip()` but not to `int()`:
      the code "\U{1c}3000" strips to "3000", while the period "\U{1c}2019JJ00"
      has a prefix `int()` rejects. */
  lemma SeparatorPaddingExample()
    ensures Strip("\U{1c}3000") == "3000"
    ensures ParseInt(Prefix("\U{1c}2019JJ00", 4)) == None
  {
    var s := "\U{1c}3000";
    assert Leading(s, IsSpace) == 1 by {
      assert IsSpace(s[0]);
      assert s[1..] == "3000";
      assert !IsSpace('3');
    }
    var t := s[1..];
    assert TrailingStart(t, IsSpace) == 4 by {
      assert !IsSpace('0');
    }
    assert Prefix("\U{1c}2019JJ00", 4) == "\U{1c}201";
    ForeignCharacterRejected("\U{1c}201", 0);
  }

  /** The code of the remote data set is padded: " 3000 " strips to "3000". */
  lemma StripExample()
    ensures Strip(" 3000 ") == "3000"
  {
    var s := " 3000 ";
    assert Leading(s, IsSpace) == 1 by {
      assert IsSpace(s[0]);
      assert s[1..] == "3000 ";
      assert !IsSpace('3');
    }
    var t := s[1..];
    assert TrailingStart(t, IsSpace) == 4 by {
      assert t[..4] == "3000";
      assert !IsSpace('0');
    }
    assert t[..4] == "3000";
  }
}
