/**
 * The string operations the scraping helpers rely on: Go's
 * strings.ToLower, strings.TrimSpace, strings.Contains and
 * strings.ReplaceAll(s, pat, ""), and the scanners that stand in for the
 * regular expressions `\d+\.?\d*`, `(\d+\.?\d*)\s*%` and `[\d,]+`.
 */
module Text {
  import opened Wrappers

  // ---------------------------------------------------------------------
  // Character classes

  predicate IsDigit(c: char) {
    '0' <= c <= '9'
  }

  /** `\s` of Go's regexp syntax: ASCII space, tab, newline, form feed, return. */
  predicate IsRegexSpace(c: char) {
    c == ' ' || c == '\t' || c == '\n' || c == '\U{000C}' || c == '\r'
  }

  /** Go's unicode.IsSpace, which strings.TrimSpace uses. */
  predicate IsUnicodeSpace(c: char) {
    || c == ' ' || c == '\t' || c == '\n' || c == '\U{000B}' || c == '\U{000C}' || c == '\r'
    || c == '\U{0085}' || c == '\U{00A0}' || c == '\U{1680}'
    || ('\U{2000}' <= c <= '\U{200A}')
    || c == '\U{2028}' || c == '\U{2029}' || c == '\U{202F}' || c == '\U{205F}' || c == '\U{3000}'
  }

  predicate IsDigitOrComma(c: char) {
    IsDigit(c) || c == ','
  }

  function DigitValue(c: char): (d: nat)
    requires IsDigit(c)
    ensures d < 10
  {
    (c as int) - ('0' as int)
  }

  // ---------------------------------------------------------------------
  // Lower-casing (ASCII letters only)

  function LowerChar(c: char): (l: char)
    ensures 'A' <= c <= 'Z' ==> 'a' <= l <= 'z' && l as int == c as int + 32
    ensures !('A' <= c <= 'Z') ==> l == c
  {
    if 'A' <= c <= 'Z' then (c as int + 32) as char else c
  }

  function ToLower(s: string): (r: string)
    ensures |r| == |s|
    ensures forall i :: 0 <= i < |s| ==> r[i] == LowerChar(s[i])
  {
    seq(|s|, i requires 0 <= i < |s| => LowerChar(s[i]))
  }

  /** Lower-casing twice is lower-casing once. */
  lemma ToLowerIdempotent(s: string)
    ensures ToLower(ToLower(s)) == ToLower(s)
  {
    var t := ToLower(s);
    forall i | 0 <= i < |s|
      ensures ToLower(t)[i] == t[i]
    {
      assert !('A' <= t[i] <= 'Z');
    }
  }

  // ---------------------------------------------------------------------
  // Substrings

  /** `p` occurs in `s` at position `i`. */
  predicate OccursAt(s: string, p: string, i: int) {
    0 <= i && i + |p| <= |s| && s[i..i + |p|] == p
  }

  /** strings.Contains(s, p). */
  predicate Contains(s: string, p: string): (found: bool)
    ensures found ==> |p| <= |s|
    ensures p <= s ==> found
  {
    OccursAtStart(s, p);
    exists i :: 0 <= i <= |s| - |p| && OccursAt(s, p, i)
  }

  /** A string occurs in any text that has a piece starting with it. */
  lemma ContainsPiecePrefix(a: string, m: string, c: string, p: string)
    requires p <= m
    ensures Contains(a + m + c, p)
  {
    assert (a + m + c)[|a|..|a| + |p|] == p;
    assert OccursAt(a + m + c, p, |a|);
  }

  /**
   * strings.ReplaceAll(s, p, ""): remove the non-overlapping occurrences of
   * `p`, found left to right.
   */
  function RemoveAll(s: string, p: string): (r: string)
    requires |p| > 0
    ensures |r| <= |s|
    decreases |s|
  {
    if |s| < |p| then s
    else if p <= s then RemoveAll(s[|p|..], p)
    else [s[0]] + RemoveAll(s[1..], p)
  }

  /** Occurring at position 0 is being a prefix. */
  lemma OccursAtStart(s: string, p: string)
    ensures OccursAt(s, p, 0) <==> p <= s
  {
    if |p| <= |s| {
      assert s[0..|p|] == s[..|p|];
    }
  }

  /** Occurrences in `s[1..]` are those of `s`, one position to the left. */
  lemma OccursAtTail(s: string, p: string, k: nat)
    requires |s| > 0
    ensures OccursAt(s[1..], p, k) <==> OccursAt(s, p, k + 1)
  {
    if k + 1 + |p| <= |s| {
      assert s[1..][k..k + |p|] == s[k + 1..k + 1 + |p|];
    }
  }

  /** A text without the pattern comes back unchanged. */
  lemma {:induction false} RemoveAllWithoutOccurrence(s: string, p: string)
    requires |p| > 0 && !Contains(s, p)
    ensures RemoveAll(s, p) == s
    decreases |s|
  {
    if |s| >= |p| {
      assert !OccursAt(s, p, 0);
      OccursAtStart(s, p);
      forall k | 0 <= k <= |s[1..]| - |p| ensures !OccursAt(s[1..], p, k) {
        OccursAtTail(s, p, k);
      }
      RemoveAllWithoutOccurrence(s[1..], p);
      assert [s[0]] + s[1..] == s;
    }
  }

  /** A text with the pattern loses at least one occurrence's length. */
  lemma {:induction false} RemoveAllShortens(s: string, p: string)
    requires |p| > 0 && Contains(s, p)
    ensures |RemoveAll(s, p)| <= |s| - |p|
    decreases |s|
  {
    OccursAtStart(s, p);
    if !(p <= s) {
      var i :| 0 <= i <= |s| - |p| && OccursAt(s, p, i);
      assert i != 0;
      OccursAtTail(s, p, i - 1);
      assert OccursAt(s[1..], p, i - 1);
      RemoveAllShortens(s[1..], p);
    }
  }

  lemma RemoveAllKeepsHead(s: string, p: string)
    requires |p| > 0 && |s| >= |p| && !(p <= s)
    ensures RemoveAll(s, p) == [s[0]] + RemoveAll(s[1..], p)
  {
  }

  lemma RemoveAllSameText(a: string, b: string, p: string)
    requires |p| > 0 && a == b
    ensures RemoveAll(a, p) == RemoveAll(b, p)
  {
  }

  /** No occurrence of `p` starts inside `pre` when `rest` follows it. */
  predicate NoneStartsIn(pre: string, rest: string, p: string)
    decreases |pre|
  {
    pre == [] || (!(p <= pre + rest) && NoneStartsIn(pre[1..], rest, p))
  }

  /**
   * The text before the first occurrence of `p` is kept as it is, that
   * occurrence is removed, and the removal goes on after it.
   */
  lemma {:induction false} RemoveAllFirstOccurrence(pre: string, p: string, post: string)
    requires |p| > 0 && NoneStartsIn(pre, p + post, p)
    ensures RemoveAll(pre + (p + post), p) == pre + RemoveAll(post, p)
    decreases |pre|
  {
    if pre == [] {
      assert pre + (p + post) == p + post && (p + post)[|p|..] == post;
    } else {
      var s := pre + (p + post);
      RemoveAllKeepsHead(s, p);
      assert s[1..] == pre[1..] + (p + post);
      RemoveAllSameText(s[1..], pre[1..] + (p + post), p);
      RemoveAllFirstOccurrence(pre[1..], p, post);
      PrependHead(pre, s[0], RemoveAll(s, p), RemoveAll(s[1..], p), RemoveAll(post, p));
    }
  }

  /** No occurrence of `p` at a position inside `pre`, stated recursively. */
  lemma {:induction false} NoneStartsInFromOccurs(pre: string, rest: string, p: string)
    requires forall k :: 0 <= k < |pre| ==> !OccursAt(pre + rest, p, k)
    ensures NoneStartsIn(pre, rest, p)
    decreases |pre|
  {
    if pre != [] {
      assert !OccursAt(pre + rest, p, 0);
      OccursAtStart(pre + rest, p);
      assert (pre + rest)[1..] == pre[1..] + rest;
      forall k | 0 <= k < |pre[1..]| ensures !OccursAt(pre[1..] + rest, p, k) {
        OccursAtTail(pre + rest, p, k);
      }
      NoneStartsInFromOccurs(pre[1..], rest, p);
    }
  }

  /**
   * When `p` first occurs in `s` at `i`, removal keeps `s[..i]`, drops that
   * occurrence and goes on after it.
   */
  lemma RemoveAllAtFirst(s: string, p: string, i: nat)
    requires |p| > 0 && OccursAt(s, p, i)
    requires forall k :: 0 <= k < i ==> !OccursAt(s, p, k)
    ensures RemoveAll(s, p) == s[..i] + RemoveAll(s[i + |p|..], p)
  {
    var pre, post := s[..i], s[i + |p|..];
    assert s[i..i + |p|] == p;
    assert pre + (p + post) == s;
    NoneStartsInFromOccurs(pre, p + post, p);
    RemoveAllFirstOccurrence(pre, p, post);
    RemoveAllSameText(pre + (p + post), s, p);
  }

  /** Putting the head back in front of a kept prefix. */
  lemma PrependHead(pre: string, c: char, r: string, rest: string, after: string)
    requires |pre| > 0 && c == pre[0]
    requires rest == pre[1..] + after && r == [c] + rest
    ensures r == pre + after
  {
    assert [pre[0]] + pre[1..] == pre;
  }

  // ---------------------------------------------------------------------
  // Scanning for character classes

  /** The end of the run of `inClass` characters that starts at `i`. */
  function RunEnd(s: string, i: nat, inClass: char -> bool): (j: nat)
    requires i <= |s|
    ensures i <= j <= |s|
    ensures forall k :: i <= k < j ==> inClass(s[k])
    ensures j < |s| ==> !inClass(s[j])
    decreases |s| - i
  {
    if i < |s| && inClass(s[i]) then RunEnd(s, i + 1, inClass) else i
  }

  /** The start of the run of `inClass` characters that ends just before `j`. */
  function RunStart(s: string, j: nat, inClass: char -> bool): (i: nat)
    requires j <= |s|
    ensures i <= j
    ensures forall k :: i <= k < j ==> inClass(s[k])
    ensures i > 0 ==> !inClass(s[i - 1])
  {
    if j > 0 && inClass(s[j - 1]) then RunStart(s, j - 1, inClass) else j
  }

  /** The first position at or after `i` holding an `inClass` character. */
  function FindFrom(s: string, i: nat, inClass: char -> bool): (r: Option<nat>)
    requires i <= |s|
    ensures r.None? ==> forall k :: i <= k < |s| ==> !inClass(s[k])
    ensures r.Some? ==>
      && i <= r.value < |s| && inClass(s[r.value])
      && forall k :: i <= k < r.value ==> !inClass(s[k])
    decreases |s| - i
  {
    if i == |s| then None
    else if inClass(s[i]) then Some(i)
    else FindFrom(s, i + 1, inClass)
  }

  // ---------------------------------------------------------------------
  // Trimming

  /** `r` is `s[i..j]`, and everything outside that slice is a `drop` character. */
  predicate TrimmedFrom(s: string, r: string, i: nat, j: nat, drop: char -> bool) {
    && i <= j <= |s| && r == s[i..j]
    && (forall k :: 0 <= k < i ==> drop(s[k]))
    && (forall k :: j <= k < |s| ==> drop(s[k]))
  }

  /** `s` without its leading and trailing `drop` characters. */
  function TrimBy(s: string, drop: char -> bool): (r: string)
    ensures exists i: nat, j: nat :: TrimmedFrom(s, r, i, j, drop)
    ensures r == [] || (!drop(r[0]) && !drop(r[|r| - 1]))
  {
    var i := RunEnd(s, 0, drop);
    if i == |s| then
      assert TrimmedFrom(s, [], i, i, drop);
      []
    else
      var j := RunStart(s, |s|, drop);
      assert TrimmedFrom(s, s[i..j], i, j, drop);
      s[i..j]
  }

  /** strings.TrimSpace: drop leading and trailing white space. */
  function TrimSpace(s: string): (r: string)
    ensures exists i: nat, j: nat :: TrimmedFrom(s, r, i, j, IsUnicodeSpace)
    ensures r == [] || (!IsUnicodeSpace(r[0]) && !IsUnicodeSpace(r[|r| - 1]))
  {
    TrimBy(s, IsUnicodeSpace)
  }

  // ---------------------------------------------------------------------
  // Decimal numerals

  /** A match of `\d+\.?\d*`: the digits before the point and those after. */
  datatype Numeral = Numeral(whole: string, hasPoint: bool, fraction: string)

  predicate AllDigits(s: string) {
    forall k :: 0 <= k < |s| ==> IsDigit(s[k])
  }

  predicate WellFormed(n: Numeral) {
    |n.whole| > 0 && AllDigits(n.whole) && AllDigits(n.fraction)
    && (!n.hasPoint ==> n.fraction == [])
  }

  /** The characters of a numeral, as the regular expression matched them. */
  function NumeralText(n: Numeral): string {
    n.whole + (if n.hasPoint then "." else "") + n.fraction
  }

  /** The value of a string of decimal digits. */
  function IntValue(d: string): (v: nat)
    requires AllDigits(d)
  {
    if d == [] then 0 else 10 * IntValue(d[..|d| - 1]) + DigitValue(d[|d| - 1])
  }

  /** The value of the digits after a decimal point. */
  function FracValue(d: string): (v: real)
    requires AllDigits(d)
    ensures 0.0 <= v <= 1.0
  {
    if d == [] then 0.0 else (DigitValue(d[0]) as real + FracValue(d[1..])) / 10.0
  }

  /** strconv.ParseFloat of a numeral's text (it always parses). */
  function NumeralValue(n: Numeral): (v: real)
    requires WellFormed(n)
    ensures v >= 0.0
    ensures IntValue(n.whole) as real <= v <= IntValue(n.whole) as real + 1.0
  {
    IntValue(n.whole) as real + FracValue(n.fraction)
  }

  /** Where the greedy `\d+\.?\d*` that starts at `p` ends. */
  function NumeralEnd(s: string, p: nat): (e: nat)
    requires p <= |s|
    ensures p <= e <= |s|
  {
    var e1 := RunEnd(s, p, IsDigit);
    if e1 < |s| && s[e1] == '.' then RunEnd(s, e1 + 1, IsDigit) else e1
  }

  /** The numeral that `\d+\.?\d*` matches at a digit `p`. */
  function NumeralAt(s: string, p: nat): (n: Numeral)
    requires p < |s| && IsDigit(s[p])
    ensures WellFormed(n)
    ensures NumeralText(n) == s[p..NumeralEnd(s, p)]
    ensures |n.whole| > 0 && n.whole == s[p..RunEnd(s, p, IsDigit)]
  {
    var e1 := RunEnd(s, p, IsDigit);
    if e1 < |s| && s[e1] == '.' then
      var e2 := RunEnd(s, e1 + 1, IsDigit);
      assert s[p..e2] == s[p..e1] + "." + s[e1 + 1..e2];
      Numeral(s[p..e1], true, s[e1 + 1..e2])
    else
      Numeral(s[p..e1], false, "")
  }

  /**
   * The first match of `\d+\.?\d*` in `s`: it starts at the first digit
   * (leftmost) and takes the greedy extent from there.
   */
  function FirstNumeral(s: string): (r: Option<Numeral>)
    ensures r.None? <==> forall k :: 0 <= k < |s| ==> !IsDigit(s[k])
    ensures r.Some? ==> exists p ::
      && 0 <= p < |s| && IsDigit(s[p])
      && (forall k :: 0 <= k < p ==> !IsDigit(s[k])) && r.value == NumeralAt(s, p)
  {
    match FindFrom(s, 0, IsDigit)
    case None => None
    case Some(p) => Some(NumeralAt(s, p))
  }

  /**
   * `(\d+\.?\d*)\s*%` matches at position `p`. Starting at a digit, any
   * match must take the whole digit run, then the point and the whole
   * following digit run if the run is followed by a point, so the match
   * exists exactly when the greedy numeral is followed by `\s*%`.
   */
  predicate PercentAt(s: string, p: nat) {
    p < |s| && IsDigit(s[p]) &&
    var e := RunEnd(s, NumeralEnd(s, p), IsRegexSpace);
    e < |s| && s[e] == '%'
  }

  /** The first position in [i, n) where `at` holds. */
  function FirstWhere(i: nat, n: nat, at: nat -> bool): (r: Option<nat>)
    requires i <= n
    ensures r.None? ==> forall k :: i <= k < n ==> !at(k)
    ensures r.Some? ==>
      && i <= r.value < n && at(r.value)
      && forall k :: i <= k < r.value ==> !at(k)
    decreases n - i
  {
    if i == n then None
    else if at(i) then Some(i)
    else FirstWhere(i + 1, n, at)
  }

  /** The leftmost position at or after `i` where `(\d+\.?\d*)\s*%` matches. */
  function FindPercentFrom(s: string, i: nat): (r: Option<nat>)
    requires i <= |s|
    ensures r.None? ==> forall k :: i <= k < |s| ==> !PercentAt(s, k)
    ensures r.Some? ==>
      && i <= r.value < |s| && PercentAt(s, r.value)
      && forall k :: i <= k < r.value ==> !PercentAt(s, k)
  {
    var at := (k: nat) => PercentAt(s, k);
    assert forall k: nat :: at(k) == PercentAt(s, k);
    FirstWhere(i, |s|, at)
  }

  /** The group captured by regexp.FindStringSubmatch for `(\d+\.?\d*)\s*%`. */
  function PercentNumeral(s: string): (r: Option<Numeral>)
    ensures r.None? <==> forall k :: 0 <= k < |s| ==> !PercentAt(s, k)
    ensures r.Some? ==> exists p ::
      && 0 <= p < |s| && PercentAt(s, p)
      && (forall k :: 0 <= k < p ==> !PercentAt(s, k)) && r.value == NumeralAt(s, p)
  {
    match FindPercentFrom(s, 0)
    case None => None
    case Some(p) => Some(NumeralAt(s, p))
  }

  /** The digits of `s`, with every comma removed. */
  function DropCommas(s: string): (r: string)
    requires forall k :: 0 <= k < |s| ==> IsDigitOrComma(s[k])
    ensures AllDigits(r) && |r| <= |s|
  {
    if s == [] then []
    else if s[0] == ',' then DropCommas(s[1..])
    else
      assert IsDigitOrComma(s[0]);
      [s[0]] + DropCommas(s[1..])
  }

  /** Nothing is left exactly when the run held only commas. */
  lemma {:induction false} DropCommasEmpty(s: string)
    requires forall k :: 0 <= k < |s| ==> IsDigitOrComma(s[k])
    ensures DropCommas(s) == [] <==> forall k :: 0 <= k < |s| ==> s[k] == ','
  {
    if s != [] {
      DropCommasEmpty(s[1..]);
      assert forall k :: 1 <= k < |s| ==> s[k] == s[1..][k - 1];
    }
  }

  /** A run without commas is kept as it is. */
  lemma {:induction false} DropCommasNoComma(s: string)
    requires AllDigits(s)
    ensures DropCommas(s) == s
  {
    if s != [] {
      DropCommasNoComma(s[1..]);
      assert [s[0]] + s[1..] == s;
    }
  }

  /** Removing commas works piece by piece. */
  lemma {:induction false} DropCommasAppend(a: string, b: string)
    requires forall k :: 0 <= k < |a| ==> IsDigitOrComma(a[k])
    requires forall k :: 0 <= k < |b| ==> IsDigitOrComma(b[k])
    ensures DropCommas(a + b) == DropCommas(a) + DropCommas(b)
  {
    if a == [] {
      assert a + b == b;
    } else {
      assert (a + b)[1..] == a[1..] + b;
      DropCommasAppend(a[1..], b);
    }
  }

  /** A comma alone leaves nothing. */
  lemma DropCommasComma()
    ensures DropCommas(",") == []
  {
    assert ","[1..] == [];
  }

  /**
   * The first match of `[\d,]+`: the maximal run of digits and commas that
   * starts at the first digit or comma.
   */
  function FirstDigitCommaRun(s: string): (r: Option<string>)
    ensures r.None? <==> forall k :: 0 <= k < |s| ==> !IsDigitOrComma(s[k])
    ensures r.Some? ==> exists p ::
      && 0 <= p < |s| && IsDigitOrComma(s[p])
      && (forall k :: 0 <= k < p ==> !IsDigitOrComma(s[k]))
      && r.value == s[p..RunEnd(s, p, IsDigitOrComma)]
    ensures r.Some? ==>
      && |r.value| > 0
      && forall k :: 0 <= k < |r.value| ==> IsDigitOrComma(r.value[k])
  {
    match FindFrom(s, 0, IsDigitOrComma)
    case None => None
    case Some(p) => Some(s[p..RunEnd(s, p, IsDigitOrComma)])
  }
}
