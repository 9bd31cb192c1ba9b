/**
 * The JavaScript built-ins the list query relies on, written out:
 * `parseInt(s, 10)`, `String.prototype.toUpperCase`, and the
 * case-insensitive substring test that `ILIKE '%search%'` performs.
 */
module JsText {
  import opened Wrappers

  /** StrWhiteSpaceChar of ECMAScript: white space and line terminators. */
  predicate IsStrWhiteSpace(c: char)
  {
    c == ' ' || c == '\t' || c == '\n' || c == '\r' || c == '\U{000B}' || c == '\U{000C}'
    || c == '\U{00A0}' || c == '\U{1680}' || ('\U{2000}' <= c <= '\U{200A}')
    || c == '\U{2028}' || c == '\U{2029}' || c == '\U{202F}' || c == '\U{205F}'
    || c == '\U{3000}' || c == '\U{FEFF}'
  }

  predicate IsDigit(c: char)
  {
    '0' <= c <= '9'
  }

  function DigitValue(c: char): nat
    requires IsDigit(c)
  {
    c as int - '0' as int
  }

  function DigitChar(d: nat): (c: char)
    requires d < 10
    ensures IsDigit(c) && DigitValue(c) == d
  {
    ('0' as int + d) as char
  }

  /** The string with its leading white space removed. */
  function TrimStart(s: string): (r: string)
    ensures |r| <= |s| && r == s[|s| - |r|..]
    ensures r == [] || !IsStrWhiteSpace(r[0])
    ensures forall k :: 0 <= k < |s| - |r| ==> IsStrWhiteSpace(s[k])
  {
    if s != [] && IsStrWhiteSpace(s[0]) then TrimStart(s[1..]) else s
  }

  /** The longest prefix of `s` made of decimal digits. */
  function DigitPrefix(s: string): (r: string)
    ensures |r| <= |s| && r == s[..|r|]
    ensures forall k :: 0 <= k < |r| ==> IsDigit(r[k])
    ensures |r| < |s| ==> !IsDigit(s[|r|])
  {
    if s != [] && IsDigit(s[0]) then [s[0]] + DigitPrefix(s[1..]) else []
  }

  /** The value of a string of decimal digits, most significant first. */
  function DigitsValue(ds: string): nat
    requires forall k :: 0 <= k < |ds| ==> IsDigit(ds[k])
  {
    if ds == [] then 0 else DigitsValue(ds[..|ds| - 1]) * 10 + DigitValue(ds[|ds| - 1])
  }

  /** What follows an optional leading `-` or `+`. */
  function AfterSign(t: string): string
  {
    if t != [] && (t[0] == '-' || t[0] == '+') then t[1..] else t
  }

  /**
   * `parseInt(s, 10)`: skip leading white space, take an optional sign, then
   * the longest run of decimal digits; `None` stands for `NaN` (no digits).
   * The source's result is a double, so -0 is 0 here.
   */
  function ParseInt(s: string): Option<int>
  {
    var t := TrimStart(s);
    var negative := t != [] && t[0] == '-';
    var ds := DigitPrefix(AfterSign(t));
    if ds == [] then None
    else
      var magnitude: int := DigitsValue(ds);
      Some(if negative then -magnitude else magnitude)
  }

  /**
   * `parseInt` is `NaN` exactly when no digit follows the leading white space
   * and the optional sign, and it is negative only after a `-`.
   */
  lemma ParseIntNaNExactly(s: string)
    ensures var u := AfterSign(TrimStart(s));
            ParseInt(s).None? <==> u == [] || !IsDigit(u[0])
    ensures ParseInt(s).Some? && ParseInt(s).value < 0 ==> TrimStart(s) != [] && TrimStart(s)[0] == '-'
    ensures ParseInt(s).Some? && TrimStart(s)[0] == '-' ==> ParseInt(s).value <= 0
  {
  }

  /** The decimal rendering of a natural number, without leading zeros. */
  function ShowNat(n: nat): (r: string)
    ensures r != [] && forall k :: 0 <= k < |r| ==> IsDigit(r[k])
  {
    if n < 10 then [DigitChar(n)] else ShowNat(n / 10) + [DigitChar(n % 10)]
  }

  /** The decimal rendering of an integer, as `String(n)` gives it. */
  function Show(n: int): string
  {
    if n < 0 then "-" + ShowNat(-n) else ShowNat(n)
  }

  lemma {:induction false} DigitsValueOfShowNat(n: nat)
    ensures DigitsValue(ShowNat(n)) == n
  {
    if n >= 10 {
      var s := ShowNat(n);
      assert s[..|s| - 1] == ShowNat(n / 10);
      DigitsValueOfShowNat(n / 10);
    }
  }

  lemma {:induction false} DigitPrefixOfDigits(s: string, rest: string)
    requires forall k :: 0 <= k < |s| ==> IsDigit(s[k])
    requires rest == [] || !IsDigit(rest[0])
    ensures DigitPrefix(s + rest) == s
  {
    if s != [] {
      assert (s + rest)[1..] == s[1..] + rest;
      DigitPrefixOfDigits(s[1..], rest);
    }
  }

  /** `parseInt` reads back what `String(n)` writes, for every integer. */
  lemma ParseIntShowRoundTrip(n: int)
    ensures ParseInt(Show(n)) == Some(n)
  {
    var m: nat := if n < 0 then -n else n;
    var digits := ShowNat(m);
    DigitsValueOfShowNat(m);
    DigitPrefixOfDigits(digits, []);
    assert digits + [] == digits;
    var s := Show(n);
    DigitIsNoSpaceOrSign(digits[0]);
    if n < 0 {
      assert s[0] == '-' && s[1..] == digits;
      assert AfterSign(s) == digits;
    } else {
      assert s == digits;
      assert AfterSign(s) == digits;
    }
    assert !IsStrWhiteSpace(s[0]);
    assert TrimStart(s) == s;
  }

  /** Text after the digits is ignored, and so is leading white space: "  12abc" reads as 12. */
  lemma ParseIntIgnoresSurroundings(ws: string, ds: string, rest: string)
    requires forall k :: 0 <= k < |ws| ==> IsStrWhiteSpace(ws[k])
    requires ds != [] && forall k :: 0 <= k < |ds| ==> IsDigit(ds[k])
    requires rest == [] || !IsDigit(rest[0])
    ensures ParseInt(ws + (ds + rest)) == Some(DigitsValue(ds))
  {
    var t := ds + rest;
    assert t[0] == ds[0];
    DigitIsNoSpaceOrSign(t[0]);
    TrimStartOfWhiteSpace(ws, t);
    DigitPrefixOfDigits(ds, rest);
    ParseIntOfTrimmed(ws + t, t, ds);
  }

  lemma DigitIsNoSpaceOrSign(c: char)
    requires IsDigit(c)
    ensures !IsStrWhiteSpace(c) && c != '-' && c != '+'
  {
  }

  lemma ParseIntOfTrimmed(s: string, t: string, ds: string)
    requires TrimStart(s) == t && t != [] && IsDigit(t[0])
    requires DigitPrefix(t) == ds
    ensures ds != [] && forall k :: 0 <= k < |ds| ==> IsDigit(ds[k])
    ensures ParseInt(s) == Some(DigitsValue(ds))
  {
    assert t[0] != '-' && t[0] != '+';
    assert AfterSign(t) == t;
  }

  lemma {:induction false} TrimStartOfWhiteSpace(ws: string, s: string)
    requires forall k :: 0 <= k < |ws| ==> IsStrWhiteSpace(ws[k])
    requires s == [] || !IsStrWhiteSpace(s[0])
    ensures TrimStart(ws + s) == s
  {
    if ws != [] {
      assert (ws + s)[1..] == ws[1..] + s;
      TrimStartOfWhiteSpace(ws[1..], s);
    }
  }

  /** A string whose first character is not white space, a sign or a digit is `NaN`. */
  lemma ParseIntOfNonNumeric(s: string)
    requires s != [] && !IsStrWhiteSpace(s[0]) && !IsDigit(s[0]) && s[0] != '-' && s[0] != '+'
    ensures ParseInt(s) == None
  {
  }

  /** ASCII part of `toUpperCase`. */
  function UpperChar(c: char): char
  {
    if 'a' <= c <= 'z' then (c as int - 'a' as int + 'A' as int) as char else c
  }

  /** ASCII part of `toLowerCase`, the folding `ILIKE` applies to both sides. */
  function LowerChar(c: char): char
  {
    if 'A' <= c <= 'Z' then (c as int - 'A' as int + 'a' as int) as char else c
  }

  /** `s.toUpperCase()`, restricted to ASCII letters. */
  function UpperCase(s: string): (r: string)
    ensures |r| == |s|
    ensures forall k :: 0 <= k < |s| ==> r[k] == UpperChar(s[k])
  {
    if s == [] then [] else [UpperChar(s[0])] + UpperCase(s[1..])
  }

  function LowerCase(s: string): (r: string)
    ensures |r| == |s|
    ensures forall k :: 0 <= k < |s| ==> r[k] == LowerChar(s[k])
  {
    if s == [] then [] else [LowerChar(s[0])] + LowerCase(s[1..])
  }

  /** Upper-casing twice is upper-casing once, so "ASC" and "asc" give the same direction. */
  lemma UpperCaseIdempotent(s: string)
    ensures UpperCase(UpperCase(s)) == UpperCase(s)
  {
  }

  /** `needle` occurs in `hay` at position `i`. */
  predicate OccursAt(needle: string, hay: string, i: nat)
  {
    i + |needle| <= |hay| && hay[i..i + |needle|] == needle
  }

  /** `needle` occurs somewhere in `hay`. */
  predicate Contains(hay: string, needle: string)
    decreases |hay|
  {
    (|needle| <= |hay| && hay[..|needle|] == needle) || (hay != [] && Contains(hay[1..], needle))
  }

  /** `Contains` is the substring test: it holds exactly when some position matches. */
  lemma {:induction false} ContainsIffOccurs(hay: string, needle: string)
    ensures Contains(hay, needle) <==> exists i: nat :: OccursAt(needle, hay, i)
    decreases |hay|
  {
    if |needle| <= |hay| && hay[..|needle|] == needle {
      assert OccursAt(needle, hay, 0);
    } else if hay != [] {
      ContainsIffOccurs(hay[1..], needle);
      if Contains(hay[1..], needle) {
        var i: nat :| OccursAt(needle, hay[1..], i);
        assert hay[i + 1..i + 1 + |needle|] == hay[1..][i..i + |needle|];
        assert OccursAt(needle, hay, i + 1);
      } else {
        forall i: nat | OccursAt(needle, hay, i)
          ensures false
        {
          if i > 0 {
            assert hay[1..][i - 1..i - 1 + |needle|] == hay[i..i + |needle|];
            assert OccursAt(needle, hay[1..], i - 1);
          }
        }
      }
    } else {
      forall i: nat | OccursAt(needle, hay, i)
        ensures false
      {
      }
    }
  }

  /** `name ILIKE '%search%'`: `search` occurs in `name`, ignoring ASCII letter case. */
  predicate ILikeSubstring(name: string, search: string)
  {
    Contains(LowerCase(name), LowerCase(search))
  }

  /** The empty pattern `'%%'` matches every name. */
  lemma {:induction false} EmptySearchMatchesAll(name: string)
    ensures ILikeSubstring(name, "")
  {
    assert LowerCase(name)[..0] == LowerCase("");
  }
}
