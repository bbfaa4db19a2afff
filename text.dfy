/**
 * Character classes and string primitives shared by the model: Python's
 * whitespace test (`str.isspace`, which is also what `\s` matches in a `re`
 * pattern over `str`), `strip()`, case mapping, substring search, collapsing
 * whitespace runs (`re.sub(r"\s+", " ", s)`) and `str(int)` / `int(str)`.
 */
module Text {
  import opened Wrappers

  const NBSP: char := '\U{00A0}'

  /** Python's `str.isspace()`; `re`'s `\s` on `str` patterns matches the same characters. */
  predicate IsSpace(c: char) {
    || ('\t' <= c <= '\r')
    || ('\U{1C}' <= c <= '\U{1F}')
    || c == ' '
    || c == '\U{85}'
    || c == NBSP
    || c == '\U{1680}'
    || ('\U{2000}' <= c <= '\U{200A}')
    || c == '\U{2028}' || c == '\U{2029}'
    || c == '\U{202F}' || c == '\U{205F}' || c == '\U{3000}'
  }

  ghost predicate AllSpace(s: string) {
    forall i :: 0 <= i < |s| ==> IsSpace(s[i])
  }

  /** Neither the first nor the last character is whitespace. */
  ghost predicate NoOuterSpace(s: string) {
    s == [] || (!IsSpace(s[0]) && !IsSpace(s[|s| - 1]))
  }

  /** Length of the whitespace run that starts `s`. */
  function LeadingSpaces(s: string): (k: nat)
    ensures k <= |s|
    ensures forall i :: 0 <= i < k ==> IsSpace(s[i])
    ensures k < |s| ==> !IsSpace(s[k])
  {
    if s == [] || !IsSpace(s[0]) then 0 else 1 + LeadingSpaces(s[1..])
  }

  /** Length of the whitespace run that ends `s`. */
  function TrailingSpaces(s: string): (k: nat)
    ensures k <= |s|
    ensures forall i :: |s| - k <= i < |s| ==> IsSpace(s[i])
    ensures k < |s| ==> !IsSpace(s[|s| - 1 - k])
  {
    if s == [] || !IsSpace(s[|s| - 1]) then 0
    else 1 + TrailingSpaces(s[..|s| - 1])
  }

  /** Where the text kept by `strip()` ends: before the trailing run, or at the leading run's end when everything is whitespace. */
  function StripEnd(s: string): (j: nat)
    ensures LeadingSpaces(s) <= j <= |s|
    ensures forall k :: j <= k < |s| ==> IsSpace(s[k])
    ensures LeadingSpaces(s) < j ==> !IsSpace(s[j - 1])
  {
    var i := LeadingSpaces(s);
    if i == |s| then i
    else
      var t := TrailingSpaces(s);
      assert !IsSpace(s[i]);
      |s| - t
  }

  /**
   * Python's `s.strip()`: the result is the slice of `s` left after removing
   * the whitespace at both ends, and it neither starts nor ends with whitespace.
   */
  function Strip(s: string): (r: string)
    ensures var i := LeadingSpaces(s);
      && i + |r| <= |s|
      && r == s[i..i + |r|]
      && (forall k :: 0 <= k < i ==> IsSpace(s[k]))
      && (forall k :: i + |r| <= k < |s| ==> IsSpace(s[k]))
    ensures NoOuterSpace(r)
  {
    s[LeadingSpaces(s)..StripEnd(s)]
  }

  lemma StripNoOuterSpace(s: string)
    requires NoOuterSpace(s)
    ensures Strip(s) == s
  {
  }

  /** `strip()` is idempotent. */
  lemma StripIdempotent(s: string)
    ensures Strip(Strip(s)) == Strip(s)
  {
    StripNoOuterSpace(Strip(s));
  }

  /** `sub` occurs in `s` starting at index `i`. */
  ghost predicate OccursAt(s: string, sub: string, i: int) {
    0 <= i <= |s| - |sub| && s[i..i + |sub|] == sub
  }

  lemma OccursAtZero(s: string, sub: string)
    ensures OccursAt(s, sub, 0) <==> |sub| <= |s| && s[..|sub|] == sub
  {
    if |sub| <= |s| {
      assert s[0..|sub|] == s[..|sub|];
    }
  }

  lemma OccursAtShift(s: string, sub: string, i: int)
    requires s != [] && i > 0
    ensures OccursAt(s, sub, i) <==> OccursAt(s[1..], sub, i - 1)
  {
    if i <= |s| - |sub| {
      assert s[1..][i - 1..i - 1 + |sub|] == s[i..i + |sub|];
    }
  }

  /** A differing character at offset `k` rules out an occurrence at `i`. */
  lemma MismatchAt(s: string, sub: string, i: int, k: nat)
    requires k < |sub| && 0 <= i && i + k < |s| && s[i + k] != sub[k]
    ensures !OccursAt(s, sub, i)
  {
    assert i + |sub| <= |s| ==> s[i..i + |sub|][k] == s[i + k];
  }

  /** Python's `sub in s`. */
  function Contains(s: string, sub: string): (b: bool)
    ensures b <==> exists i :: OccursAt(s, sub, i)
    decreases |s|
  {
    if |sub| > |s| then false
    else if s[..|sub|] == sub then
      assert OccursAt(s, sub, 0) by {
        OccursAtZero(s, sub);
      }
      true
    else
      var b := Contains(s[1..], sub);
      if b then
        assert exists i :: OccursAt(s, sub, i) by {
          var i :| OccursAt(s[1..], sub, i);
          OccursAtShift(s, sub, i + 1);
        }
        true
      else
        assert forall i :: !OccursAt(s, sub, i) by {
          forall i
            ensures !OccursAt(s, sub, i)
          {
            if i > 0 {
              OccursAtShift(s, sub, i);
            } else {
              OccursAtZero(s, sub);
            }
          }
        }
        false
  }

  /** `str.upper()` on one character: ASCII and the Latin-1 letters with a one-character capital. */
  function UpperChar(c: char): (u: char)
    ensures IsSpace(u) == IsSpace(c)
    ensures 'a' <= c <= 'z' ==> 'A' <= u <= 'Z'
  {
    if 'a' <= c <= 'z' then (c as int - 32) as char
    else if '\U{E0}' <= c <= '\U{FE}' && c != '\U{F7}' then (c as int - 32) as char
    else if c == '\U{FF}' then '\U{178}'
    else if c == '\U{B5}' then '\U{39C}'
    else c
  }

  /** `str.lower()` on one character: ASCII and the Latin-1 capitals. */
  function LowerChar(c: char): (l: char)
    ensures IsSpace(l) == IsSpace(c)
    ensures 'A' <= c <= 'Z' ==> 'a' <= l <= 'z'
  {
    if 'A' <= c <= 'Z' then (c as int + 32) as char
    else if '\U{C0}' <= c <= '\U{DE}' && c != '\U{D7}' then (c as int + 32) as char
    else c
  }

  function Upper(s: string): (r: string)
    ensures |r| == |s|
    ensures forall i :: 0 <= i < |s| ==> r[i] == UpperChar(s[i])
  {
    seq(|s|, i requires 0 <= i < |s| => UpperChar(s[i]))
  }

  function Lower(s: string): (r: string)
    ensures |r| == |s|
    ensures forall i :: 0 <= i < |s| ==> r[i] == LowerChar(s[i])
  {
    seq(|s|, i requires 0 <= i < |s| => LowerChar(s[i]))
  }

  /** Two strings with whitespace at the same positions have the same leading run. */
  lemma SameLeading(s: string, u: string)
    requires |s| == |u|
    requires forall k :: 0 <= k < |s| ==> IsSpace(u[k]) == IsSpace(s[k])
    ensures LeadingSpaces(u) == LeadingSpaces(s)
  {
    var i, j := LeadingSpaces(s), LeadingSpaces(u);
    assert i < |s| ==> !IsSpace(u[i]);
    assert j < |s| ==> !IsSpace(s[j]);
  }

  /** Two strings with whitespace at the same positions have the same trailing run. */
  lemma SameTrailing(s: string, u: string)
    requires |s| == |u|
    requires forall k :: 0 <= k < |s| ==> IsSpace(u[k]) == IsSpace(s[k])
    ensures TrailingSpaces(u) == TrailingSpaces(s)
  {
    var a, b := TrailingSpaces(s), TrailingSpaces(u);
    assert a < |s| ==> !IsSpace(u[|s| - 1 - a]);
    assert b < |s| ==> !IsSpace(s[|s| - 1 - b]);
  }

  /** Upper-casing maps whitespace to whitespace and back, so it commutes with `strip()`. */
  lemma UpperStrip(s: string)
    ensures Upper(Strip(s)) == Strip(Upper(s))
  {
    var u := Upper(s);
    SameLeading(s, u);
    SameTrailing(s, u);
    assert StripEnd(u) == StripEnd(s);
    UpperSlice(s, LeadingSpaces(s), StripEnd(s));
  }

  lemma UpperSlice(s: string, a: nat, b: nat)
    requires a <= b <= |s|
    ensures Upper(s[a..b]) == Upper(s)[a..b]
  {
    var l, r := Upper(s[a..b]), Upper(s)[a..b];
    forall k | 0 <= k < b - a
      ensures l[k] == r[k]
    {
      assert s[a..b][k] == s[a + k];
    }
  }

  /**
   * Python's `re.sub(r"\s+", " ", s)`: every maximal run of whitespace
   * becomes one space.
   */
  function CollapseSpaces(s: string): (r: string)
    decreases |s|
  {
    if s == [] then []
    else if IsSpace(s[0]) then " " + CollapseSpaces(s[LeadingSpaces(s)..])
    else [s[0]] + CollapseSpaces(s[1..])
  }

  /** No two whitespace characters are adjacent. */
  ghost predicate NoDoubleSpace(s: string) {
    forall i :: 0 <= i < |s| - 1 ==> !(IsSpace(s[i]) && IsSpace(s[i + 1]))
  }

  /** The only whitespace character `s` holds is the plain space. */
  ghost predicate OnlyPlainSpaces(s: string) {
    forall i :: 0 <= i < |s| ==> IsSpace(s[i]) ==> s[i] == ' '
  }

  /**
   * After collapsing, whitespace only ever appears as single plain spaces, and
   * the result starts with whitespace exactly when the input does.
   */
  lemma {:induction false} CollapseSpacesShape(s: string)
    ensures NoDoubleSpace(CollapseSpaces(s))
    ensures OnlyPlainSpaces(CollapseSpaces(s))
    ensures |CollapseSpaces(s)| <= |s|
    ensures s != [] ==> CollapseSpaces(s) != [] && IsSpace(CollapseSpaces(s)[0]) == IsSpace(s[0])
    decreases |s|
  {
    if s == [] {
    } else if IsSpace(s[0]) {
      var t := s[LeadingSpaces(s)..];
      CollapseSpacesShape(t);
      assert t != [] ==> !IsSpace(t[0]);
    } else {
      CollapseSpacesShape(s[1..]);
    }
  }

  /** The non-whitespace characters of `s`, in order. */
  function Visible(s: string): (r: string)
    ensures |r| <= |s|
    decreases |s|
  {
    if s == [] then [] else (if IsSpace(s[0]) then [] else [s[0]]) + Visible(s[1..])
  }

  lemma {:induction false} VisibleConcat(a: string, b: string)
    ensures Visible(a + b) == Visible(a) + Visible(b)
    decreases |a|
  {
    if a == [] {
      assert a + b == b;
    } else {
      var h := if IsSpace(a[0]) then "" else [a[0]];
      assert (a + b)[0] == a[0];
      assert (a + b)[1..] == a[1..] + b;
      assert Visible(a + b) == h + Visible(a[1..] + b);
      VisibleConcat(a[1..], b);
      assert h + (Visible(a[1..]) + Visible(b)) == (h + Visible(a[1..])) + Visible(b);
    }
  }

  lemma {:induction false} VisibleAllSpace(s: string)
    requires AllSpace(s)
    ensures Visible(s) == []
    decreases |s|
  {
    if s != [] {
      VisibleAllSpace(s[1..]);
    }
  }

  /** Dropping a leading whitespace run keeps the non-whitespace characters. */
  lemma VisibleLeadingSpaces(s: string)
    ensures Visible(s[LeadingSpaces(s)..]) == Visible(s)
  {
    var k := LeadingSpaces(s);
    assert s == s[..k] + s[k..];
    VisibleConcat(s[..k], s[k..]);
    VisibleAllSpace(s[..k]);
  }

  /** Collapsing keeps the non-whitespace characters, in order: only whitespace runs change. */
  lemma {:induction false} CollapseSpacesVisible(s: string)
    ensures Visible(CollapseSpaces(s)) == Visible(s)
    decreases |s|
  {
    if s != [] {
      if IsSpace(s[0]) {
        var t := s[LeadingSpaces(s)..];
        CollapseSpacesVisible(t);
        VisibleLeadingSpaces(s);
        assert (" " + CollapseSpaces(t))[1..] == CollapseSpaces(t);
      } else {
        CollapseSpacesVisible(s[1..]);
        assert ([s[0]] + CollapseSpaces(s[1..]))[1..] == CollapseSpaces(s[1..]);
      }
    }
  }

  /** Collapsing leaves alone a string whose whitespace is already single plain spaces. */
  lemma {:induction false} CollapseSpacesFixed(s: string)
    requires NoDoubleSpace(s) && OnlyPlainSpaces(s)
    ensures CollapseSpaces(s) == s
    decreases |s|
  {
    if s != [] {
      if IsSpace(s[0]) {
        assert |s| > 1 ==> !IsSpace(s[1]);
        assert LeadingSpaces(s) == 1;
      }
      CollapseSpacesFixed(s[1..]);
    }
  }

  function DigitChar(d: nat): char
    requires d < 10
  {
    ['0', '1', '2', '3', '4', '5', '6', '7', '8', '9'][d]
  }

  predicate IsDigit(c: char) {
    '0' <= c <= '9'
  }

  function DigitValue(c: char): (d: nat)
    requires IsDigit(c)
    ensures d < 10
  {
    c as int - '0' as int
  }

  function NatDigits(n: nat): (r: string)
    ensures r != []
    ensures forall i :: 0 <= i < |r| ==> IsDigit(r[i])
    decreases n
  {
    if n < 10 then [DigitChar(n)] else NatDigits(n / 10) + [DigitChar(n % 10)]
  }

  /** Python's `str(n)` for an `int`. */
  function DecimalString(n: int): string {
    if n < 0 then "-" + NatDigits(-n) else NatDigits(n)
  }

  /** Value of a non-empty run of ASCII digits. */
  function DigitsValue(s: string): (n: nat)
    requires forall i :: 0 <= i < |s| ==> IsDigit(s[i])
    decreases |s|
  {
    if s == [] then 0 else 10 * DigitsValue(s[..|s| - 1]) + DigitValue(s[|s| - 1])
  }

  predicate AllDigits(s: string) {
    forall i :: 0 <= i < |s| ==> IsDigit(s[i])
  }

  /**
   * Python's `int(s)` on a decimal literal: surrounding whitespace, an
   * optional sign and at least one ASCII digit; `None` where Python raises
   * `ValueError`.
   */
  function ParseInt(s: string): Option<int> {
    var t := Strip(s);
    if t == [] then None
    else if t[0] == '-' || t[0] == '+' then
      var d := t[1..];
      if d != [] && AllDigits(d) then
        var v: int := DigitsValue(d);
        Some(if t[0] == '-' then -v else v)
      else None
    else if AllDigits(t) then Some(DigitsValue(t))
    else None
  }

  lemma {:induction false} DigitsOfNat(n: nat)
    ensures DigitsValue(NatDigits(n)) == n
    decreases n
  {
    var r := NatDigits(n);
    if n >= 10 {
      DigitsOfNat(n / 10);
      assert r[..|r| - 1] == NatDigits(n / 10);
    }
  }

  lemma DigitIsPlain(c: char)
    requires IsDigit(c)
    ensures !IsSpace(c) && c != '-' && c != '+'
  {
  }

  /** A run of digits, with or without a leading minus, has no outer whitespace. */
  lemma DecimalNoOuterSpace(n: int)
    ensures NoOuterSpace(DecimalString(n))
  {
    var d := NatDigits(if n < 0 then -n else n);
    DigitIsPlain(d[0]);
    DigitIsPlain(d[|d| - 1]);
    if n < 0 {
      var s := "-" + d;
      assert s[|s| - 1] == d[|d| - 1];
    }
  }

  /** `int(str(n)) == n`: the page number written into a form reads back unchanged. */
  lemma DecimalRoundTrip(n: int)
    ensures ParseInt(DecimalString(n)) == Some(n)
  {
    var m := if n < 0 then -n else n;
    var d := NatDigits(m);
    DigitsOfNat(m);
    var s := DecimalString(n);
    DecimalNoOuterSpace(n);
    StripNoOuterSpace(s);
    assert AllDigits(d);
    if n < 0 {
      assert s[0] == '-' && s[1..] == d;
    } else {
      assert s == d;
      DigitIsPlain(d[0]);
    }
  }
}
