/**
 * The numeral pattern `\d+\.*\d*` that the driver searches every incoming
 * line for (with `re.findall`): one or more digits, then any number of dots,
 * then any number of digits. There is no sign in the pattern.
 */
module Numeral {
  import opened Wrappers

  predicate IsDigit(c: char) {
    '0' <= c <= '9'
  }

  /** The two character classes the pattern repeats. */
  datatype CharClass = Digits | Dots

  predicate InClass(c: char, cls: CharClass) {
    match cls
    case Digits => IsDigit(c)
    case Dots => c == '.'
  }

  /** The length of the longest run of `cls` characters in `s` starting at `i`. */
  function Run(s: string, i: nat, cls: CharClass): (n: nat)
    requires i <= |s|
    ensures i + n <= |s|
    ensures forall k :: i <= k < i + n ==> InClass(s[k], cls)
    ensures i + n == |s| || !InClass(s[i + n], cls)
    decreases |s| - i
  {
    if i < |s| && InClass(s[i], cls) then 1 + Run(s, i + 1, cls) else 0
  }

  /** The index of the first digit of `s` at or after `i`, or `|s|` if there is none. */
  function FirstDigit(s: string, i: nat): (j: nat)
    requires i <= |s|
    ensures i <= j <= |s|
    ensures forall k :: i <= k < j ==> !IsDigit(s[k])
    ensures j < |s| ==> IsDigit(s[j])
    decreases |s| - i
  {
    if i == |s| || IsDigit(s[i]) then i else FirstDigit(s, i + 1)
  }

  /** A match of the pattern, as the half-open index range `[start, end)`. */
  datatype Span = Span(start: nat, end: nat)

  /** `t` is `a` digits (at least one), then `b - a` dots, then digits. */
  ghost predicate Shaped(t: string, a: nat, b: nat) {
    0 < a <= b <= |t| &&
    (forall k :: 0 <= k < a ==> IsDigit(t[k])) &&
    (forall k :: a <= k < b ==> t[k] == '.') &&
    (forall k :: b <= k < |t| ==> IsDigit(t[k]))
  }

  /** `t` as a whole matches `\d+\.*\d*`. */
  ghost predicate IsNumeral(t: string) {
    exists a: nat, b: nat :: Shaped(t, a, b)
  }

  /**
   * `m` is the match a regular-expression search of `s` starting at `from`
   * reports: no match starts earlier, and no longer match starts at the
   * same place.
   */
  ghost predicate LeftmostLongest(s: string, from: nat, m: Span) {
    from <= m.start < m.end <= |s| &&
    IsNumeral(s[m.start..m.end]) &&
    (forall j, k :: from <= j < m.start && j < k <= |s| ==> !IsNumeral(s[j..k])) &&
    (forall k :: m.end < k <= |s| ==> !IsNumeral(s[m.start..k]))
  }

  /** The greedy match searching `s` from index `from`. */
  function FindNumeralFrom(s: string, from: nat): (r: Option<Span>)
    requires from <= |s|
    ensures r.Some? ==> from <= r.value.start < r.value.end <= |s|
  {
    var i := FirstDigit(s, from);
    if i == |s| then None else Some(Span(i, GreedyEnd(s, i)))
  }

  /** Where the greedy match starting at `i` ends: digits, then dots, then digits. */
  function GreedyEnd(s: string, i: nat): (l: nat)
    requires i <= |s|
    ensures i <= l <= |s|
    ensures i < |s| && IsDigit(s[i]) ==> i < l
  {
    var j := i + Run(s, i, Digits);
    var k := j + Run(s, j, Dots);
    k + Run(s, k, Digits)
  }

  /** Every match, left to right and without overlap, from index `from` on (`re.findall`). */
  function FindAllFrom(s: string, from: nat): (r: seq<string>)
    requires from <= |s|
    ensures forall m :: m in r ==> IsNumeral(m)
    decreases |s| - from
  {
    match FindNumeralFrom(s, from)
    case None => []
    case Some(m) =>
      FindNumeralIsLeftmostLongest(s, from);
      [s[m.start..m.end]] + FindAllFrom(s, m.end)
  }

  function FindAll(s: string): seq<string> {
    FindAllFrom(s, 0)
  }

  /** The first match of the pattern in `s`, the text the driver stores. */
  function FirstNumeral(s: string): (r: Option<string>)
    ensures r.Some? <==> exists k :: 0 <= k < |s| && IsDigit(s[k])
    ensures r.Some? ==> IsNumeral(r.value) && IsDigit(r.value[0])
    ensures r.Some? ==> forall c :: c in r.value ==> IsDigit(c) || c == '.'
  {
    match FindNumeralFrom(s, 0)
    case None => None
    case Some(m) =>
      FindNumeralIsLeftmostLongest(s, 0);
      NumeralChars(s[m.start..m.end]);
      Some(s[m.start..m.end])
  }

  /** What every whole match looks like: it starts with a digit and holds only digits and dots. */
  lemma NumeralChars(t: string)
    ensures IsNumeral(t) ==> |t| > 0 && IsDigit(t[0])
    ensures IsNumeral(t) ==> forall k :: 0 <= k < |t| ==> IsDigit(t[k]) || t[k] == '.'
    ensures IsNumeral(t) ==> forall c :: c in t ==> IsDigit(c) || c == '.'
  {
    if IsNumeral(t) {
      var a: nat, b: nat :| Shaped(t, a, b);
      forall c | c in t ensures IsDigit(c) || c == '.' {
        var k :| 0 <= k < |t| && t[k] == c;
      }
    }
  }

  /** No match starts anywhere in `s[from..to]` when that stretch holds no digit. */
  lemma NoMatchWithoutDigit(s: string, from: nat, to: nat)
    requires from <= to <= |s|
    requires forall k :: from <= k < to ==> !IsDigit(s[k])
    ensures forall j, k :: from <= j < to && j < k <= |s| ==> !IsNumeral(s[j..k])
  {
    forall j, k | from <= j < to && j < k <= |s| ensures !IsNumeral(s[j..k]) {
      NumeralChars(s[j..k]);
      assert s[j..k][0] == s[j];
    }
  }

  /** The greedy search finds exactly the leftmost-longest match, and finds none only when there is none. */
  lemma FindNumeralIsLeftmostLongest(s: string, from: nat)
    requires from <= |s|
    ensures FindNumeralFrom(s, from).None? <==>
              forall j, k :: from <= j < k <= |s| ==> !IsNumeral(s[j..k])
    ensures FindNumeralFrom(s, from).Some? ==> LeftmostLongest(s, from, FindNumeralFrom(s, from).value)
  {
    var i := FirstDigit(s, from);
    NoMatchWithoutDigit(s, from, i);
    if i < |s| {
      GreedyMatchIsNumeral(s, i);
      forall e | GreedyEnd(s, i) < e <= |s| ensures !IsNumeral(s[i..e]) {
        NoLongerMatch(s, i, e);
      }
    }
  }

  /** The greedy match is a match. */
  lemma GreedyMatchIsNumeral(s: string, i: nat)
    requires i < |s| && IsDigit(s[i])
    ensures IsNumeral(s[i..GreedyEnd(s, i)])
  {
    var j := i + Run(s, i, Digits);
    var k := j + Run(s, j, Dots);
    assert Shaped(s[i..GreedyEnd(s, i)], j - i, k - i);
  }

  /** Nothing longer than the greedy match, starting where it starts, is a match. */
  lemma NoLongerMatch(s: string, i: nat, e: nat)
    requires i < |s| && IsDigit(s[i])
    requires GreedyEnd(s, i) < e <= |s|
    ensures !IsNumeral(s[i..e])
  {
    var j := i + Run(s, i, Digits);
    var k := j + Run(s, j, Dots);
    var l := GreedyEnd(s, i);
    var u := s[i..e];
    var p := l - i;
    assert u[p] == s[l] && !IsDigit(s[l]);
    if l > k {
      // the trailing digits end at l, so s[l] would have to be a dot after a digit
      assert u[p - 1] == s[l - 1] && IsDigit(s[l - 1]);
      assert u[j - i] == s[j] && !IsDigit(s[j]);
      forall a: nat, b: nat ensures !Shaped(u, a, b) {
        assert Shaped(u, a, b) ==> a <= p < b;
        assert Shaped(u, a, b) ==> p - 1 < a;
      }
    } else {
      // no trailing digits: s[l] ends both the dots and the digits
      assert s[k] != '.';
      forall a: nat, b: nat ensures !Shaped(u, a, b) {
      }
    }
  }

  /** `re.findall(...)[0]` exists exactly when there is a first match, and it is that match;
      every element of the list is a whole match. */
  lemma FindAllStartsWithFirstNumeral(s: string)
    ensures forall m :: m in FindAll(s) ==> IsNumeral(m)
    ensures |FindAll(s)| > 0 <==> exists k :: 0 <= k < |s| && IsDigit(s[k])
    ensures |FindAll(s)| > 0 <==> FirstNumeral(s).Some?
    ensures |FindAll(s)| > 0 ==> FindAll(s)[0] == FirstNumeral(s).value
  {
  }
}
