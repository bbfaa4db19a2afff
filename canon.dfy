/**
 * `canonizar_processo`: the four-step rewrite applied to a process number
 * captured from a row (listar_processos_sei.py:519-525). Each `re.sub` is
 * modelled as the regex engine scans: left to right, trying a match at each
 * position and resuming after the text it replaced.
 */
module Canon {
  import opened Text

  /** Step 1: `txt.replace("\xa0", " ")`. */
  function ReplaceNbsp(s: string): (r: string)
    ensures |r| == |s|
    ensures forall i :: 0 <= i < |s| ==> r[i] == (if s[i] == NBSP then ' ' else s[i])
  {
    seq(|s|, i requires 0 <= i < |s| => if s[i] == NBSP then ' ' else s[i])
  }

  function SkipSpaces(s: string): string {
    s[LeadingSpaces(s)..]
  }

  /**
   * Step 2: `re.sub(r"\.\s+", ".", txt)`. A '.' keeps its place and the
   * whitespace run right after it is dropped.
   */
  function SquashAfterDot(s: string): string
    decreases |s|
  {
    if s == [] then []
    else if s[0] == '.' then "." + SquashAfterDot(SkipSpaces(s[1..]))
    else [s[0]] + SquashAfterDot(s[1..])
  }

  /** The pattern `\s*x\s*` matches at the start of `s`. */
  predicate MatchesAround(s: string, x: char) {
    var k := LeadingSpaces(s);
    k < |s| && s[k] == x
  }

  /**
   * Steps 3 and 4: the substitutions that replace `\s*` '/' `\s*` by "/" and
   * `\s*-\s*` by "-", for a separator `x` that is not itself whitespace.
   */
  function SquashAround(s: string, x: char): string
    requires !IsSpace(x)
    decreases |s|
  {
    if s == [] then []
    else if MatchesAround(s, x) then [x] + SquashAround(SkipSpaces(s[LeadingSpaces(s) + 1..]), x)
    else [s[0]] + SquashAround(s[1..], x)
  }

  /** `canonizar_processo(txt)`. */
  function Canonize(s: string): string {
    Strip(SquashAround(SquashAround(SquashAfterDot(ReplaceNbsp(s)), '/'), '-'))
  }

  // ---------------------------------------------------------------------------
  // Properties of the output

  ghost predicate NoSpaceAfter(s: string, x: char) {
    forall i :: 0 <= i < |s| - 1 && s[i] == x ==> !IsSpace(s[i + 1])
  }

  ghost predicate NoSpaceBefore(s: string, x: char) {
    forall i :: 0 < i < |s| && s[i] == x ==> !IsSpace(s[i - 1])
  }

  ghost predicate NbspFree(s: string) {
    forall i :: 0 <= i < |s| ==> s[i] != NBSP
  }

  /** What `canonizar_processo` promises of its result. */
  ghost predicate Canonical(s: string) {
    && NbspFree(s)
    && NoSpaceAfter(s, '.')
    && NoSpaceAfter(s, '/') && NoSpaceBefore(s, '/')
    && NoSpaceAfter(s, '-') && NoSpaceBefore(s, '-')
    && NoOuterSpace(s)
  }

  lemma VisibleSkipSpaces(s: string)
    ensures Visible(SkipSpaces(s)) == Visible(s)
  {
    VisibleLeadingSpaces(s);
  }

  // ---------------------------------------------------------------------------
  // The shape predicates on a character followed by a string, and on suffixes

  lemma AfterCons(h: char, r: string, c: char)
    requires NoSpaceAfter(r, c)
    requires h == c && r != [] ==> !IsSpace(r[0])
    ensures NoSpaceAfter([h] + r, c)
  {
    var s := [h] + r;
    forall i | 0 <= i < |s| - 1 && s[i] == c ensures !IsSpace(s[i + 1]) {
      if i > 0 { assert s[i] == r[i - 1] && s[i + 1] == r[i]; }
    }
  }

  lemma BeforeCons(h: char, r: string, c: char)
    requires NoSpaceBefore(r, c)
    requires r != [] && r[0] == c ==> !IsSpace(h)
    ensures NoSpaceBefore([h] + r, c)
  {
    var s := [h] + r;
    forall i | 0 < i < |s| && s[i] == c ensures !IsSpace(s[i - 1]) {
      if i > 1 { assert s[i] == r[i - 1] && s[i - 1] == r[i - 2]; }
    }
  }

  lemma NbspFreeCons(h: char, r: string)
    requires h != NBSP && NbspFree(r)
    ensures NbspFree([h] + r)
  {
    var s := [h] + r;
    forall i | 0 < i < |s| ensures s[i] != NBSP {
      assert s[i] == r[i - 1];
    }
  }

  lemma SuffixAfter(s: string, j: nat, c: char)
    requires j <= |s| && NoSpaceAfter(s, c)
    ensures NoSpaceAfter(s[j..], c)
  {
    var t := s[j..];
    forall i | 0 <= i < |t| - 1 && t[i] == c ensures !IsSpace(t[i + 1]) {
      assert t[i] == s[j + i] && t[i + 1] == s[j + i + 1];
    }
  }

  lemma SuffixBefore(s: string, j: nat, c: char)
    requires j <= |s| && NoSpaceBefore(s, c)
    ensures NoSpaceBefore(s[j..], c)
  {
    var t := s[j..];
    forall i | 0 < i < |t| && t[i] == c ensures !IsSpace(t[i - 1]) {
      assert t[i] == s[j + i] && t[i - 1] == s[j + i - 1];
    }
  }

  lemma SuffixNbspFree(s: string, j: nat)
    requires j <= |s| && NbspFree(s)
    ensures NbspFree(s[j..])
  {
    var t := s[j..];
    forall i | 0 <= i < |t| ensures t[i] != NBSP {
      assert t[i] == s[j + i];
    }
  }

  /** What is left after the whitespace run that follows position `k`. */
  lemma SkipAfter(s: string, k: nat)
    requires k < |s|
    ensures SkipSpaces(s[k + 1..]) == s[k + 1 + LeadingSpaces(s[k + 1..])..]
    ensures k + 1 + LeadingSpaces(s[k + 1..]) <= |s|
  {
  }

  // ---------------------------------------------------------------------------
  // Step 1

  lemma {:induction false} ReplaceNbspVisible(s: string)
    ensures Visible(ReplaceNbsp(s)) == Visible(s)
    decreases |s|
  {
    if s != [] {
      assert ReplaceNbsp(s)[1..] == ReplaceNbsp(s[1..]);
      ReplaceNbspVisible(s[1..]);
    }
  }

  lemma ReplaceNbspShape(s: string)
    ensures NbspFree(ReplaceNbsp(s))
    ensures NbspFree(s) ==> ReplaceNbsp(s) == s
  {
  }

  // ---------------------------------------------------------------------------
  // Step 2

  lemma SquashAfterDotHead(s: string)
    requires s != []
    ensures SquashAfterDot(s) != [] && SquashAfterDot(s)[0] == s[0]
  {
  }

  /** After step 2 no whitespace follows a '.'. */
  lemma {:induction false} SquashAfterDotClears(s: string)
    ensures NoSpaceAfter(SquashAfterDot(s), '.')
    decreases |s|
  {
    if s != [] {
      if s[0] == '.' {
        var t := SkipSpaces(s[1..]);
        SquashAfterDotClears(t);
        if t != [] {
          SquashAfterDotHead(t);
          assert !IsSpace(t[0]);
        }
        AfterCons('.', SquashAfterDot(t), '.');
      } else {
        SquashAfterDotClears(s[1..]);
        AfterCons(s[0], SquashAfterDot(s[1..]), '.');
      }
    }
  }

  /** Step 2 removes whitespace only. */
  lemma {:induction false} SquashAfterDotVisible(s: string)
    ensures Visible(SquashAfterDot(s)) == Visible(s)
    decreases |s|
  {
    if s != [] {
      if s[0] == '.' {
        var t := SkipSpaces(s[1..]);
        SquashAfterDotVisible(t);
        VisibleSkipSpaces(s[1..]);
        assert ("." + SquashAfterDot(t))[1..] == SquashAfterDot(t);
      } else {
        SquashAfterDotVisible(s[1..]);
        assert ([s[0]] + SquashAfterDot(s[1..]))[1..] == SquashAfterDot(s[1..]);
      }
    }
  }

  lemma {:induction false} SquashAfterDotNbspFree(s: string)
    requires NbspFree(s)
    ensures NbspFree(SquashAfterDot(s))
    decreases |s|
  {
    if s != [] {
      if s[0] == '.' {
        SkipAfter(s, 0);
        SuffixNbspFree(s, 1 + LeadingSpaces(s[1..]));
        SquashAfterDotNbspFree(SkipSpaces(s[1..]));
        NbspFreeCons('.', SquashAfterDot(SkipSpaces(s[1..])));
      } else {
        SuffixNbspFree(s, 1);
        SquashAfterDotNbspFree(s[1..]);
        NbspFreeCons(s[0], SquashAfterDot(s[1..]));
      }
    }
  }

  lemma {:induction false} SquashAfterDotFixes(s: string)
    requires NoSpaceAfter(s, '.')
    ensures SquashAfterDot(s) == s
    decreases |s|
  {
    if s != [] {
      assert NoSpaceAfter(s[1..], '.');
      if s[0] == '.' && |s| > 1 {
        assert !IsSpace(s[1]);
        assert SkipSpaces(s[1..]) == s[1..];
      }
      SquashAfterDotFixes(s[1..]);
    }
  }

  // ---------------------------------------------------------------------------
  // Steps 3 and 4

  lemma SquashAroundHead(s: string, x: char)
    requires !IsSpace(x) && s != []
    ensures SquashAround(s, x) != []
    ensures SquashAround(s, x)[0] == if MatchesAround(s, x) then x else s[0]
  {
  }

  /** A whitespace first character that is not the start of a match is not followed by one either. */
  lemma NoMatchAfterSpace(s: string, x: char)
    requires !IsSpace(x) && s != [] && IsSpace(s[0]) && !MatchesAround(s, x)
    ensures !MatchesAround(s[1..], x)
  {
    assert LeadingSpaces(s) == 1 + LeadingSpaces(s[1..]);
  }

  /** After squashing around `x`, no whitespace touches an `x`. */
  lemma {:induction false} SquashAroundClears(s: string, x: char)
    requires !IsSpace(x)
    ensures NoSpaceAfter(SquashAround(s, x), x)
    ensures NoSpaceBefore(SquashAround(s, x), x)
    decreases |s|
  {
    if s != [] {
      var k := LeadingSpaces(s);
      if MatchesAround(s, x) {
        var t := SkipSpaces(s[k + 1..]);
        var rest := SquashAround(t, x);
        SquashAroundClears(t, x);
        if t != [] {
          SquashAroundHead(t, x);
          assert !IsSpace(t[0]);
        }
        AfterCons(x, rest, x);
        BeforeCons(x, rest, x);
      } else {
        var rest := SquashAround(s[1..], x);
        SquashAroundClears(s[1..], x);
        if |s| > 1 {
          SquashAroundHead(s[1..], x);
          if IsSpace(s[0]) { NoMatchAfterSpace(s, x); }
        }
        AfterCons(s[0], rest, x);
        BeforeCons(s[0], rest, x);
      }
    }
  }

  /** Squashing around `x` removes whitespace only. */
  lemma {:induction false} SquashAroundVisible(s: string, x: char)
    requires !IsSpace(x)
    ensures Visible(SquashAround(s, x)) == Visible(s)
    decreases |s|
  {
    if s != [] {
      var k := LeadingSpaces(s);
      if MatchesAround(s, x) {
        var t := SkipSpaces(s[k + 1..]);
        SquashAroundVisible(t, x);
        VisibleSkipSpaces(s);
        VisibleSkipSpaces(s[k + 1..]);
        assert s[k..][1..] == s[k + 1..];
      } else {
        SquashAroundVisible(s[1..], x);
        assert ([s[0]] + SquashAround(s[1..], x))[1..] == SquashAround(s[1..], x);
      }
    }
  }

  /** What is left to squash after a match of `\s*x\s*` at the start of `s`. */
  function AfterMatch(s: string, x: char): string
    requires MatchesAround(s, x)
  {
    SkipSpaces(s[LeadingSpaces(s) + 1..])
  }

  /** Where the text left after a match at the start of `s` begins. */
  function MatchEnd(s: string, x: char): (j: nat)
    requires MatchesAround(s, x)
    ensures j <= |s|
  {
    var k := LeadingSpaces(s);
    k + 1 + LeadingSpaces(s[k + 1..])
  }

  lemma AfterMatchIsSuffix(s: string, x: char)
    requires MatchesAround(s, x)
    ensures AfterMatch(s, x) == s[MatchEnd(s, x)..]
  {
    SkipAfter(s, LeadingSpaces(s));
  }

  lemma NbspFreeMatchStep(s: string, x: char)
    requires !IsSpace(x) && MatchesAround(s, x)
    requires NbspFree(SquashAround(AfterMatch(s, x), x))
    ensures NbspFree(SquashAround(s, x))
  {
    NbspFreeCons(x, SquashAround(AfterMatch(s, x), x));
  }

  lemma NbspFreeOtherStep(s: string, x: char)
    requires !IsSpace(x) && s != [] && !MatchesAround(s, x) && s[0] != NBSP
    requires NbspFree(SquashAround(s[1..], x))
    ensures NbspFree(SquashAround(s, x))
  {
    NbspFreeCons(s[0], SquashAround(s[1..], x));
  }

  lemma {:induction false} SquashAroundNbspFree(s: string, x: char)
    requires !IsSpace(x) && NbspFree(s)
    ensures NbspFree(SquashAround(s, x))
    decreases |s|
  {
    if s != [] {
      if MatchesAround(s, x) {
        AfterMatchIsSuffix(s, x);
        SuffixNbspFree(s, MatchEnd(s, x));
        SquashAroundNbspFree(AfterMatch(s, x), x);
        NbspFreeMatchStep(s, x);
      } else {
        SuffixNbspFree(s, 1);
        SquashAroundNbspFree(s[1..], x);
        NbspFreeOtherStep(s, x);
      }
    }
  }

  lemma AfterMatchStep(s: string, x: char, c: char)
    requires !IsSpace(x) && MatchesAround(s, x)
    requires NoSpaceAfter(SquashAround(AfterMatch(s, x), x), c)
    ensures NoSpaceAfter(SquashAround(s, x), c)
  {
    var t := AfterMatch(s, x);
    if t != [] {
      SquashAroundHead(t, x);
    }
    AfterCons(x, SquashAround(t, x), c);
  }

  lemma AfterOtherStep(s: string, x: char, c: char)
    requires !IsSpace(x) && !IsSpace(c) && s != [] && !MatchesAround(s, x) && NoSpaceAfter(s, c)
    requires NoSpaceAfter(SquashAround(s[1..], x), c)
    ensures NoSpaceAfter(SquashAround(s, x), c)
  {
    var rest := SquashAround(s[1..], x);
    if |s| > 1 {
      SquashAroundHead(s[1..], x);
    }
    AfterCons(s[0], rest, c);
  }

  /** Squashing around `x` keeps a "no whitespace after `c`" property already present. */
  lemma {:induction false} SquashAroundKeepsAfter(s: string, x: char, c: char)
    requires !IsSpace(x) && !IsSpace(c) && NoSpaceAfter(s, c)
    ensures NoSpaceAfter(SquashAround(s, x), c)
    decreases |s|
  {
    if s != [] {
      if MatchesAround(s, x) {
        AfterMatchIsSuffix(s, x);
        SuffixAfter(s, MatchEnd(s, x), c);
        SquashAroundKeepsAfter(AfterMatch(s, x), x, c);
        AfterMatchStep(s, x, c);
      } else {
        SuffixAfter(s, 1, c);
        SquashAroundKeepsAfter(s[1..], x, c);
        AfterOtherStep(s, x, c);
      }
    }
  }

  lemma BeforeMatchStep(s: string, x: char, c: char)
    requires !IsSpace(x) && MatchesAround(s, x)
    requires NoSpaceBefore(SquashAround(AfterMatch(s, x), x), c)
    ensures NoSpaceBefore(SquashAround(s, x), c)
  {
    BeforeCons(x, SquashAround(AfterMatch(s, x), x), c);
  }

  lemma BeforeOtherStep(s: string, x: char, c: char)
    requires !IsSpace(x) && c != x && s != [] && !MatchesAround(s, x) && NoSpaceBefore(s, c)
    requires NoSpaceBefore(SquashAround(s[1..], x), c)
    ensures NoSpaceBefore(SquashAround(s, x), c)
  {
    var rest := SquashAround(s[1..], x);
    if |s| > 1 {
      SquashAroundHead(s[1..], x);
      if rest[0] == c {
        assert s[1] == c;
      }
    }
    BeforeCons(s[0], rest, c);
  }

  /** Squashing around `x` keeps a "no whitespace before `c`" property for another separator `c`. */
  lemma {:induction false} SquashAroundKeepsBefore(s: string, x: char, c: char)
    requires !IsSpace(x) && !IsSpace(c) && c != x && NoSpaceBefore(s, c)
    ensures NoSpaceBefore(SquashAround(s, x), c)
    decreases |s|
  {
    if s != [] {
      if MatchesAround(s, x) {
        AfterMatchIsSuffix(s, x);
        SuffixBefore(s, MatchEnd(s, x), c);
        SquashAroundKeepsBefore(AfterMatch(s, x), x, c);
        BeforeMatchStep(s, x, c);
      } else {
        SuffixBefore(s, 1, c);
        SquashAroundKeepsBefore(s[1..], x, c);
        BeforeOtherStep(s, x, c);
      }
    }
  }

  lemma {:induction false} SquashAroundFixes(s: string, x: char)
    requires !IsSpace(x) && NoSpaceAfter(s, x) && NoSpaceBefore(s, x)
    ensures SquashAround(s, x) == s
    decreases |s|
  {
    if s != [] {
      var k := LeadingSpaces(s);
      assert NoSpaceAfter(s[1..], x) && NoSpaceBefore(s[1..], x);
      if IsSpace(s[0]) {
        assert !MatchesAround(s, x) by {
          if k < |s| { assert IsSpace(s[k - 1]); }
        }
      } else if s[0] == x && |s| > 1 {
        assert !IsSpace(s[1]);
        assert SkipSpaces(s[1..]) == s[1..];
      }
      SquashAroundFixes(s[1..], x);
    }
  }

  // ---------------------------------------------------------------------------
  // Step 5 (`strip()`)

  lemma StripVisible(s: string)
    ensures Visible(Strip(s)) == Visible(s)
  {
    var i := LeadingSpaces(s);
    var r := Strip(s);
    var j := i + |r|;
    var a, b := s[..i], s[j..];
    assert AllSpace(a);
    assert AllSpace(b);
    assert s == (a + r) + b;
    VisibleConcat(a + r, b);
    VisibleConcat(a, r);
    VisibleAllSpace(a);
    VisibleAllSpace(b);
  }

  lemma StripNbspFree(s: string)
    requires NbspFree(s)
    ensures NbspFree(Strip(s))
  {
    var i := LeadingSpaces(s);
    var r := Strip(s);
    forall m | 0 <= m < |r| ensures r[m] != NBSP {
      assert r[m] == s[i + m];
    }
  }

  lemma StripKeeps(s: string, c: char)
    ensures NoSpaceAfter(s, c) ==> NoSpaceAfter(Strip(s), c)
    ensures NoSpaceBefore(s, c) ==> NoSpaceBefore(Strip(s), c)
  {
    var i := LeadingSpaces(s);
    var r := Strip(s);
    assert forall m :: 0 <= m < |r| ==> r[m] == s[i + m];
  }

  // ---------------------------------------------------------------------------
  // The whole rewrite

  /**
   * The result of `canonizar_processo` holds no NBSP, no whitespace after a
   * '.', none on either side of a '/' or an ASCII '-', and none at either
   * end; and it differs from its input only by whitespace: every other
   * character, en and em dashes included, is kept, in order.
   */
  lemma CanonizeShape(s: string)
    ensures Canonical(Canonize(s))
    ensures Visible(Canonize(s)) == Visible(s)
  {
    var s1 := ReplaceNbsp(s);
    var s2 := SquashAfterDot(s1);
    var s3 := SquashAround(s2, '/');
    var s4 := SquashAround(s3, '-');
    ReplaceNbspShape(s);
    ReplaceNbspVisible(s);
    SquashAfterDotClears(s1);
    SquashAfterDotVisible(s1);
    SquashAfterDotNbspFree(s1);
    SquashAroundClears(s2, '/');
    SquashAroundVisible(s2, '/');
    SquashAroundNbspFree(s2, '/');
    SquashAroundKeepsAfter(s2, '/', '.');
    SquashAroundClears(s3, '-');
    SquashAroundVisible(s3, '-');
    SquashAroundNbspFree(s3, '-');
    SquashAroundKeepsAfter(s3, '-', '.');
    SquashAroundKeepsAfter(s3, '-', '/');
    SquashAroundKeepsBefore(s3, '-', '/');
    StripVisible(s4);
    StripNbspFree(s4);
    StripKeeps(s4, '.');
    StripKeeps(s4, '/');
    StripKeeps(s4, '-');
  }

  /** A canonical string is left unchanged. */
  lemma CanonizeFixesCanonical(s: string)
    requires Canonical(s)
    ensures Canonize(s) == s
  {
    ReplaceNbspShape(s);
    SquashAfterDotFixes(s);
    SquashAroundFixes(s, '/');
    SquashAroundFixes(s, '-');
    StripNoOuterSpace(s);
  }

  /** Applying `canonizar_processo` twice is the same as applying it once. */
  lemma CanonizeIdempotent(s: string)
    ensures Canonize(Canonize(s)) == Canonize(s)
  {
    CanonizeShape(s);
    CanonizeFixesCanonical(Canonize(s));
  }

  /** The fixed points of `canonizar_processo` are exactly the canonical strings. */
  lemma CanonizeFixedPoints(s: string)
    ensures Canonize(s) == s <==> Canonical(s)
  {
    CanonizeShape(s);
    if Canonical(s) { CanonizeFixesCanonical(s); }
  }

  lemma {:induction false} VisibleCount(s: string, c: char)
    requires !IsSpace(c)
    ensures multiset(Visible(s))[c] == multiset(s)[c]
    decreases |s|
  {
    if s != [] {
      VisibleCount(s[1..], c);
      assert s == [s[0]] + s[1..];
    }
  }

  /**
   * Any non-whitespace character occurs as often in the result as in the
   * input: an en dash or an em dash is never turned into an ASCII '-', and
   * no '-' is ever created or removed.
   */
  lemma NonSpaceCountsKept(s: string, c: char)
    requires !IsSpace(c)
    ensures multiset(Canonize(s))[c] == multiset(s)[c]
  {
    CanonizeShape(s);
    VisibleCount(s, c);
    VisibleCount(Canonize(s), c);
  }

  /**
   * Whitespace around an en dash survives: "2024 \u2013 01" is already
   * canonical, so the code does not turn it into "2024-01".
   */
  lemma EnDashSpacesKept(s: string)
    requires s == "2024 \U{2013} 01"
    ensures Canonize(s) == s
  {
    assert forall i :: 0 <= i < |s| ==> s[i] != '.' && s[i] != '/' && s[i] != '-' && s[i] != NBSP;
    CanonizeFixesCanonical(s);
  }
}
