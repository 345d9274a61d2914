/**
 * The short dimensions text a cart line keeps (js/cart-manager.js, addToCart):
 *
 *   display = dimensions.replace(/\(.*?\)/g, '').trim()
 *   short   = display.replace(/ x \d+\.\d+ x \d+\.\d+ cm/g, '')
 *                    .replace(/ x \d+ x \d+ cm/g, '').trim() || display
 */
module Dimensions {
  import opened Catalog
  import opened Text

  // ---------------------------------------------------------------------
  // Parenthesised groups: /\(.*?\)/g

  /**
   * The index in `t` of the first ')' reached before any line terminator:
   * how far the lazy `.*?\)` reaches after an opening '('.
   */
  function FindClose(t: string): (r: Option<nat>)
    ensures r.Some? ==> r.value < |t| && t[r.value] == ')'
    ensures r.Some? ==> forall k :: 0 <= k < r.value ==> t[k] != ')' && !IsLineTerminator(t[k])
  {
    if t == [] then None
    else if t[0] == ')' then Some(0)
    else if IsLineTerminator(t[0]) then None
    else match FindClose(t[1..])
      case None => None
      case Some(j) => Some(j + 1)
  }

  /** A match of /\(.*?\)/ starts at position `i` of `s`. */
  predicate GroupAt(s: string, i: nat)
    requires i < |s|
  {
    s[i] == '(' && FindClose(s[i + 1..]).Some?
  }

  /** `s.replace(/\(.*?\)/g, '')`: scans left to right, removing each group found. */
  function StripParens(s: string): (r: string)
    ensures |r| <= |s|
  {
    if s == [] then []
    else if GroupAt(s, 0) then StripParens(s[FindClose(s[1..]).value + 2..])
    else [s[0]] + StripParens(s[1..])
  }

  lemma FindCloseCons(c: char, t: string)
    requires c != ')' && !IsLineTerminator(c)
    ensures FindClose([c] + t).None? <==> FindClose(t).None?
  {
    assert ([c] + t)[1..] == t;
  }

  /** Text with no ')' before its first line terminator keeps that property when stripped. */
  lemma {:induction false} StripParensKeepsNoClose(t: string)
    requires FindClose(t).None?
    ensures FindClose(StripParens(t)).None?
  {
    if t != [] && !IsLineTerminator(t[0]) {
      assert t == [t[0]] + t[1..];
      FindCloseCons(t[0], t[1..]);
      StripParensKeepsNoClose(t[1..]);
      FindCloseCons(t[0], StripParens(t[1..]));
    }
  }

  /** Text with no group among its first `i` positions keeps them, and the rest is stripped on its own. */
  lemma {:induction false} StripParensPrefix(s: string, i: nat)
    requires i <= |s|
    requires forall j :: 0 <= j < i ==> !GroupAt(s, j)
    ensures StripParens(s) == s[..i] + StripParens(s[i..])
  {
    if i > 0 {
      var t := s[1..];
      assert !GroupAt(s, 0);
      NoGroupShift(s, i);
      StripParensPlainHead(s);
      StripParensPrefix(t, i - 1);
      assert t[i - 1..] == s[i..];
      assert s[..i] == [s[0]] + t[..i - 1];
      calc {
        StripParens(s);
        [s[0]] + StripParens(t);
        [s[0]] + (t[..i - 1] + StripParens(t[i - 1..]));
        ([s[0]] + t[..i - 1]) + StripParens(t[i - 1..]);
      }
    }
  }

  lemma StripParensPlainHead(s: string)
    requires s != [] && !GroupAt(s, 0)
    ensures StripParens(s) == [s[0]] + StripParens(s[1..])
  {
  }

  lemma NoGroupShift(s: string, i: nat)
    requires 0 < i <= |s|
    requires forall j :: 0 <= j < i ==> !GroupAt(s, j)
    ensures forall j :: 0 <= j < i - 1 ==> !GroupAt(s[1..], j)
  {
    var t := s[1..];
    forall j | 0 <= j < i - 1 ensures !GroupAt(t, j) {
      assert !GroupAt(s, j + 1);
      assert t[j] == s[j + 1] && t[j + 1..] == s[j + 2..];
    }
  }

  /** Text in which no group starts is kept as it is. */
  lemma StripParensKeepsPlainText(s: string)
    ensures (forall j :: 0 <= j < |s| ==> !GroupAt(s, j)) ==> StripParens(s) == s
  {
    if forall j :: 0 <= j < |s| ==> !GroupAt(s, j) {
      StripParensPrefix(s, |s|);
    }
  }

  /** The first ')' of `t` is at `k` when no ')' or line terminator comes before it. */
  lemma {:induction false} FindCloseAt(t: string, k: nat)
    requires k < |t| && t[k] == ')'
    requires forall m :: 0 <= m < k ==> t[m] != ')' && !IsLineTerminator(t[m])
    ensures FindClose(t) == Some(k)
  {
    if k > 0 {
      FindCloseAt(t[1..], k - 1);
    }
  }

  /**
   * The first group, from its '(' at `i` to the first ')' after it at
   * `close`, is cut out; the text before it is kept and the text after it
   * is stripped on.
   */
  lemma StripParensCutsGroup(s: string, i: nat, close: nat)
    requires i < close < |s| && s[i] == '(' && s[close] == ')'
    requires forall k :: i < k < close ==> s[k] != ')' && !IsLineTerminator(s[k])
    requires forall j :: 0 <= j < i ==> !GroupAt(s, j)
    ensures StripParens(s) == s[..i] + StripParens(s[close + 1..])
  {
    StripParensPrefix(s, i);
    StripParensAtGroup(s, i, close);
  }

  /** Text from a group's '(' at `i`, closed at `close`, is stripped from just after the group. */
  lemma StripParensAtGroup(s: string, i: nat, close: nat)
    requires i < close < |s| && s[i] == '(' && s[close] == ')'
    requires forall k :: i < k < close ==> s[k] != ')' && !IsLineTerminator(s[k])
    ensures StripParens(s[i..]) == StripParens(s[close + 1..])
  {
    var t := s[i..];
    assert t[1..] == s[i + 1..];
    FindCloseAt(s[i + 1..], close - i - 1);
    assert t[close - i + 1..] == s[close + 1..];
  }

  /** No group is left in the stripped text: every remaining '(' has no ')' after it on its line. */
  lemma {:induction false} StripParensLeavesNoGroup(s: string)
    ensures forall i :: 0 <= i < |StripParens(s)| ==> !GroupAt(StripParens(s), i)
  {
    if s == [] {
    } else if GroupAt(s, 0) {
      StripParensLeavesNoGroup(s[FindClose(s[1..]).value + 2..]);
    } else {
      var rest := StripParens(s[1..]);
      var r := [s[0]] + rest;
      StripParensLeavesNoGroup(s[1..]);
      forall i | 0 <= i < |r| ensures !GroupAt(r, i) {
        if i == 0 {
          if s[0] == '(' {
            StripParensKeepsNoClose(s[1..]);
            assert r[1..] == rest;
          }
        } else {
          assert r[i] == rest[i - 1];
          assert r[i + 1..] == rest[i..];
          assert !GroupAt(rest, i - 1);
        }
      }
    }
  }

  // ---------------------------------------------------------------------
  // Measurement suffixes

  /** A regular-expression element: a literal character or `\d+`. */
  datatype Token = Lit(c: char) | Digits

  function Literal(text: string): (p: seq<Token>)
    ensures |p| == |text|
  {
    if text == [] then [] else [Lit(text[0])] + Literal(text[1..])
  }

  /** / x \d+\.\d+ x \d+\.\d+ cm/ */
  const DecimalMeasure: seq<Token> :=
    Literal(" x ") + [Digits, Lit('.'), Digits] + Literal(" x ") + [Digits, Lit('.'), Digits] + Literal(" cm")

  /** / x \d+ x \d+ cm/ */
  const WholeMeasure: seq<Token> :=
    Literal(" x ") + [Digits] + Literal(" x ") + [Digits] + Literal(" cm")

  predicate IsDigit(c: char)
  {
    '0' <= c <= '9'
  }

  /** The length of the run of digits starting at position `i`. */
  function DigitRun(s: string, i: nat): (n: nat)
    requires i <= |s|
    ensures i + n <= |s|
    ensures forall k :: i <= k < i + n ==> IsDigit(s[k])
    ensures i + n < |s| ==> !IsDigit(s[i + n])
    decreases |s| - i
  {
    if i < |s| && IsDigit(s[i]) then 1 + DigitRun(s, i + 1) else 0
  }

  /**
   * Where a match of `pat` starting at `i` ends. Each `\d+` takes the whole
   * run of digits: in both patterns it is followed by a literal that is not a
   * digit, so no shorter run could let the rest of the pattern match.
   */
  function MatchAt(s: string, i: nat, pat: seq<Token>): (r: Option<nat>)
    requires i <= |s|
    ensures r.Some? ==> i + |pat| <= r.value <= |s|
    decreases |pat|
  {
    if pat == [] then Some(i)
    else match pat[0]
      case Lit(c) => if i < |s| && s[i] == c then MatchAt(s, i + 1, pat[1..]) else None
      case Digits =>
        var n := DigitRun(s, i);
        if n == 0 then None else MatchAt(s, i + n, pat[1..])
  }

  /** `s.replace(/pat/g, '')` from position `i` on. */
  function RemoveMatchesFrom(s: string, pat: seq<Token>, i: nat): (r: string)
    requires i <= |s| && pat != []
    ensures |r| <= |s| - i
    decreases |s| - i
  {
    if i == |s| then []
    else match MatchAt(s, i, pat)
      case Some(e) => RemoveMatchesFrom(s, pat, e)
      case None => [s[i]] + RemoveMatchesFrom(s, pat, i + 1)
  }

  /** `s.replace(/pat/g, '')` */
  function RemoveMatches(s: string, pat: seq<Token>): (r: string)
    requires pat != []
    ensures |r| <= |s|
  {
    RemoveMatchesFrom(s, pat, 0)
  }

  /** A position where no match starts keeps its character. */
  lemma KeepsOne(s: string, pat: seq<Token>, i: nat)
    requires pat != [] && i < |s|
    requires MatchAt(s, i, pat).None?
    ensures RemoveMatchesFrom(s, pat, i) == [s[i]] + RemoveMatchesFrom(s, pat, i + 1)
  {
  }

  lemma ConsSlice(s: string, i: nat, k: nat, a: string, b: string, rest: string)
    requires i < k <= |s|
    requires a == [s[i]] + b && b == s[i + 1..k] + rest
    ensures a == s[i..k] + rest
  {
    assert s[i..k] == [s[i]] + s[i + 1..k];
  }

  /** Text in which no match starts is kept as it is. */
  lemma {:induction false} KeepsUnmatched(s: string, pat: seq<Token>, i: nat, k: nat)
    requires pat != [] && i <= k <= |s|
    requires forall j :: i <= j < k ==> MatchAt(s, j, pat).None?
    ensures RemoveMatchesFrom(s, pat, i) == s[i..k] + RemoveMatchesFrom(s, pat, k)
    decreases k - i
  {
    if i < k {
      KeepsUnmatched(s, pat, i + 1, k);
      KeepsOne(s, pat, i);
      ConsSlice(s, i, k, RemoveMatchesFrom(s, pat, i), RemoveMatchesFrom(s, pat, i + 1), RemoveMatchesFrom(s, pat, k));
    }
  }

  /** Without any match, the replacement leaves the text unchanged. */
  lemma NoMatchKeepsText(s: string, pat: seq<Token>)
    requires pat != []
    requires forall j :: 0 <= j < |s| ==> MatchAt(s, j, pat).None?
    ensures RemoveMatches(s, pat) == s
  {
    KeepsUnmatched(s, pat, 0, |s|);
  }

  /** A match that runs to the end of the text, with none before it, is cut off. */
  lemma SuffixRemoved(s: string, pat: seq<Token>, k: nat)
    requires pat != [] && k <= |s|
    requires MatchAt(s, k, pat) == Some(|s|)
    requires forall j :: 0 <= j < k ==> MatchAt(s, j, pat).None?
    ensures RemoveMatches(s, pat) == s[..k]
  {
    KeepsUnmatched(s, pat, 0, k);
    assert pat != [];
  }

  /**
   * A match from `k` to `e`, with none before it, is cut out: the text before
   * it is kept and the replacement goes on after it. When nothing after it
   * matches either, the text after it is kept too.
   */
  lemma MatchCut(s: string, pat: seq<Token>, k: nat, e: nat)
    requires pat != [] && k <= |s|
    requires MatchAt(s, k, pat) == Some(e)
    requires forall j :: 0 <= j < k ==> MatchAt(s, j, pat).None?
    ensures RemoveMatches(s, pat) == s[..k] + RemoveMatchesFrom(s, pat, e)
    ensures (forall j :: e <= j < |s| ==> MatchAt(s, j, pat).None?) ==> RemoveMatches(s, pat) == s[..k] + s[e..]
  {
    KeepsUnmatched(s, pat, 0, k);
    assert s[0..k] == s[..k];
    SkipsMatch(s, pat, k, e);
    if forall j :: e <= j < |s| ==> MatchAt(s, j, pat).None? {
      KeepsUnmatched(s, pat, e, |s|);
      KeepsRest(s, pat, e, RemoveMatchesFrom(s, pat, |s|));
    }
  }

  /** The replacement goes on after a match. */
  lemma SkipsMatch(s: string, pat: seq<Token>, k: nat, e: nat)
    requires pat != [] && k <= |s|
    requires MatchAt(s, k, pat) == Some(e)
    ensures RemoveMatchesFrom(s, pat, k) == RemoveMatchesFrom(s, pat, e)
  {
    assert k < |s|;
  }

  lemma KeepsRest(s: string, pat: seq<Token>, e: nat, tail: string)
    requires pat != [] && e <= |s| && tail == RemoveMatchesFrom(s, pat, |s|)
    ensures s[e..|s|] + tail == s[e..]
  {
    assert tail == [];
  }

  // ---------------------------------------------------------------------
  // The snapshot rule

  /** `dimensions.replace(/\(.*?\)/g, '').trim()` */
  function DisplayDimensions(dimensions: string): (r: string)
    ensures |r| <= |dimensions|
    ensures r != [] ==> !IsWhitespace(r[0]) && !IsWhitespace(r[|r| - 1])
    ensures (forall j :: 0 <= j < |dimensions| ==> !GroupAt(dimensions, j)) ==> r == Trim(dimensions)
  {
    StripParensKeepsPlainText(dimensions);
    Trim(StripParens(dimensions))
  }

  /**
   * `display` without its measurement suffixes, trimmed, or `display` itself
   * when nothing would be left: the short text is empty only when the
   * display text is.
   */
  function ShortDimensions(display: string): (r: string)
    ensures r == "" <==> display == ""
  {
    var short := Trim(RemoveMatches(RemoveMatches(display, DecimalMeasure), WholeMeasure));
    if short != "" then short else display
  }

  /** A whole-number measurement suffix is dropped and the rest kept. */
  lemma WholeSuffixDropped(display: string, k: nat)
    requires k <= |display|
    requires forall j :: 0 <= j < |display| ==> MatchAt(display, j, DecimalMeasure).None?
    requires MatchAt(display, k, WholeMeasure) == Some(|display|)
    requires forall j :: 0 <= j < k ==> MatchAt(display, j, WholeMeasure).None?
    ensures ShortDimensions(display) == if Trim(display[..k]) != "" then Trim(display[..k]) else display
  {
    NoMatchKeepsText(display, DecimalMeasure);
    SuffixRemoved(display, WholeMeasure, k);
  }

  /** A decimal measurement suffix is dropped and the rest kept. */
  lemma DecimalSuffixDropped(display: string, k: nat)
    requires k <= |display|
    requires MatchAt(display, k, DecimalMeasure) == Some(|display|)
    requires forall j :: 0 <= j < k ==> MatchAt(display, j, DecimalMeasure).None?
    requires forall j :: 0 <= j < k ==> MatchAt(display[..k], j, WholeMeasure).None?
    ensures ShortDimensions(display) == if Trim(display[..k]) != "" then Trim(display[..k]) else display
  {
    SuffixRemoved(display, DecimalMeasure, k);
    NoMatchKeepsText(display[..k], WholeMeasure);
  }
}
