// The few QString operations the device-manager code relies on, written as
// functions over `string` (a sequence of characters).

module QtString {

  /** `p` is a prefix of `s`. */
  predicate IsPrefix(p: string, s: string) {
    |p| <= |s| && s[..|p|] == p
  }

  /** `p` is a suffix of `s`. */
  predicate IsSuffix(p: string, s: string) {
    |p| <= |s| && s[|s| - |p|..] == p
  }

  /** `pat` occurs in `s` starting at index `k`. */
  predicate OccursAt(s: string, pat: string, k: int) {
    0 <= k && k + |pat| <= |s| && s[k..k + |pat|] == pat
  }

  /** QString::contains(pat) with Qt::CaseSensitive: `pat` starts at `s` or inside its tail. */
  predicate Contains(s: string, pat: string)
    decreases |s|
  {
    |pat| <= |s| && (s[..|pat|] == pat || (s != [] && Contains(s[1..], pat)))
  }

  /** Contains agrees with the index-based reading: some position of `s` starts an occurrence of `pat`. */
  lemma {:induction false} ContainsIffOccurs(s: string, pat: string)
    ensures Contains(s, pat) <==> exists k :: OccursAt(s, pat, k)
    decreases |s|
  {
    if |pat| <= |s| && s != [] {
      ContainsIffOccurs(s[1..], pat);
      if Contains(s, pat) {
        if s[..|pat|] == pat {
          assert OccursAt(s, pat, 0);
        } else {
          var k :| OccursAt(s[1..], pat, k);
          assert s[1..][k..k + |pat|] == s[k + 1..k + 1 + |pat|];
          assert OccursAt(s, pat, k + 1);
        }
      } else {
        forall k ensures !OccursAt(s, pat, k) {
          if 1 <= k && k + |pat| <= |s| {
            var t := s[1..];
            assert t[k - 1..k - 1 + |pat|] == s[k..k + |pat|] by {
              assert forall i | k <= i < k + |pat| :: t[i - 1] == s[i];
            }
            assert !OccursAt(t, pat, k - 1);
          }
        }
      }
    } else if |pat| <= |s| {
      assert OccursAt(s, pat, 0);
    }
  }

  /** A string in which character `c` does not occur contains no pattern that holds `c`. */
  lemma {:induction false} AbsentCharBlocksPattern(s: string, pat: string, c: char)
    requires c !in s && c in pat
    ensures !Contains(s, pat)
    decreases |s|
  {
    if |pat| <= |s| {
      var j :| 0 <= j < |pat| && pat[j] == c;
      assert s[..|pat|][j] == s[j] != c;
      if s != [] {
        assert forall i | 0 <= i < |s[1..]| :: s[1..][i] == s[i + 1];
        AbsentCharBlocksPattern(s[1..], pat, c);
      }
    }
  }

  /** QString::indexOf(c): the first index of `c` in `s`, or -1 when there is none. */
  function IndexOf(s: string, c: char): (r: int)
    ensures -1 <= r < |s|
    ensures r == -1 <==> c !in s
    ensures 0 <= r ==> s[r] == c && c !in s[..r]
  {
    if s == [] then -1
    else if s[0] == c then 0
    else
      var t := IndexOf(s[1..], c);
      if t == -1 then -1
      else
        assert s[..t + 1] == [s[0]] + s[1..][..t];
        t + 1
  }

  /** QString::lastIndexOf(c): the last index of `c` in `s`, or -1 when there is none. */
  function LastIndexOf(s: string, c: char): (r: int)
    ensures -1 <= r < |s|
    ensures r == -1 <==> c !in s
    ensures 0 <= r ==> s[r] == c && c !in s[r + 1..]
  {
    if s == [] then -1
    else if s[|s| - 1] == c then |s| - 1
    else
      var init := s[..|s| - 1];
      var t := LastIndexOf(init, c);
      assert s == init + [s[|s| - 1]];
      assert 0 <= t ==> s[t + 1..] == init[t + 1..] + [s[|s| - 1]];
      t
  }

  /**
   * The monitor code's "cut" step: `s = s.mid(0, s.indexOf(c))` taken only
   * when that index is greater than 0.
   */
  function CutAtFirst(s: string, c: char): (r: string)
    ensures IsPrefix(r, s)
    ensures IndexOf(s, c) > 0 ==> r != [] && |r| == IndexOf(s, c) && c !in r && s[|r|] == c
    ensures IndexOf(s, c) <= 0 ==> r == s
  {
    var index := IndexOf(s, c);
    if index > 0 then s[..index] else s
  }

  /** QString::replace(before, after): every match, scanning left to right, matches not overlapping. */
  function ReplaceAll(s: string, before: string, after: string): (r: string)
    requires before != []
    ensures !Contains(s, before) ==> r == s
    ensures |after| <= |before| ==> |r| <= |s|
    decreases |s|
  {
    if |s| < |before| then s
    else if s[..|before|] == before then
      after + ReplaceAll(s[|before|..], before, after)
    else
      [s[0]] + ReplaceAll(s[1..], before, after)
  }

  /** QString::remove(t): every match of `t`, scanning left to right, removed; an empty `t` removes nothing. */
  function RemoveText(s: string, t: string): (r: string)
    ensures |r| <= |s|
    ensures !Contains(s, t) ==> r == s
  {
    if t == [] then s else ReplaceAll(s, t, "")
  }

  /** Removing text adds no character. */
  lemma {:induction false} RemoveTextKeepsOut(s: string, t: string, c: char)
    requires c !in s
    ensures c !in RemoveText(s, t)
    decreases |s|
  {
    if t != [] && |s| >= |t| {
      if s[..|t|] == t {
        RemoveTextKeepsOut(s[|t|..], t, c);
        assert RemoveText(s, t) == RemoveText(s[|t|..], t);
      } else {
        RemoveTextKeepsOut(s[1..], t, c);
        assert RemoveText(s, t) == [s[0]] + RemoveText(s[1..], t);
      }
    }
  }

  /** QString::remove(c) for a one-character text: every `c` removed, the rest kept in order. */
  function RemoveChar(s: string, c: char): (r: string)
    ensures c !in r && |r| <= |s|
    ensures c !in s ==> r == s
  {
    if s == [] then []
    else (if s[0] == c then [] else [s[0]]) + RemoveChar(s[1..], c)
  }

  // ---------------------------------------------------------------- case

  /** ASCII case folding: 'A'..'Z' become 'a'..'z'; every other character stays. */
  function LowerChar(c: char): char {
    if 'A' <= c <= 'Z' then (c as int + 32) as char else c
  }

  /** ASCII upper case: 'a'..'z' become 'A'..'Z'; every other character stays. */
  function UpperChar(c: char): char {
    if 'a' <= c <= 'z' then (c as int - 32) as char else c
  }

  function Lower(s: string): string {
    seq(|s|, k requires 0 <= k < |s| => LowerChar(s[k]))
  }

  function Upper(s: string): string {
    seq(|s|, k requires 0 <= k < |s| => UpperChar(s[k]))
  }

  /** QString::contains(pat, Qt::CaseInsensitive), folding the ASCII letters. */
  predicate ContainsIgnoringCase(s: string, pat: string) {
    Contains(Lower(s), Lower(pat))
  }

  /** Folding forgets the case a text was written in. */
  lemma LowerOfUpper(s: string)
    ensures Lower(Upper(s)) == Lower(s)
  {
    assert forall k | 0 <= k < |s| :: LowerChar(UpperChar(s[k])) == LowerChar(s[k]);
  }

  /** A text already in lower case is found in any spelling of a text that holds it as written. */
  lemma ContainsThenContainsIgnoringCase(s: string, pat: string)
    requires Lower(pat) == pat && Contains(s, pat)
    ensures ContainsIgnoringCase(s, pat)
  {
    ContainsIffOccurs(s, pat);
    var k :| OccursAt(s, pat, k);
    var folded := Lower(s);
    assert folded[k..k + |pat|] == Lower(s[k..k + |pat|]);
    assert OccursAt(folded, pat, k);
    ContainsIffOccurs(folded, pat);
  }

  // ---------------------------------------------------------------- whitespace

  /** QChar::isSpace for the ASCII range: space, tab, line feed, vertical tab, form feed, carriage return. */
  predicate IsSpace(c: char) {
    c == ' ' || ('\t' <= c <= '\r')
  }

  function TrimStart(s: string): (r: string)
    ensures IsSuffix(r, s)
    ensures r != [] ==> !IsSpace(r[0])
    ensures forall k | 0 <= k < |s| - |r| :: IsSpace(s[k])
  {
    if s != [] && IsSpace(s[0]) then
      var r := TrimStart(s[1..]);
      assert forall k | 1 <= k < |s| - |r| :: s[k] == s[1..][k - 1];
      r
    else s
  }

  function TrimEnd(s: string): (r: string)
    ensures IsPrefix(r, s)
    ensures r != [] ==> !IsSpace(r[|r| - 1])
    ensures forall k | |r| <= k < |s| :: IsSpace(s[k])
  {
    if s != [] && IsSpace(s[|s| - 1]) then
      var r := TrimEnd(s[..|s| - 1]);
      assert forall k | |r| <= k < |s| - 1 :: s[k] == s[..|s| - 1][k];
      r
    else s
  }

  /** QString::trimmed: `s` without its leading and trailing whitespace. */
  function Trim(s: string): (r: string)
    ensures r != [] ==> !IsSpace(r[0]) && !IsSpace(r[|r| - 1])
    ensures exists i | 0 <= i <= |s| - |r| ::
      && OccursAt(s, r, i)
      && (forall k | 0 <= k < i :: IsSpace(s[k]))
      && (forall k | i + |r| <= k < |s| :: IsSpace(s[k]))
  {
    var t := TrimStart(s);
    var r := TrimEnd(t);
    TrimmedSpan(s, t, r);
    r
  }

  /** The text kept by Trim sits at the end of the leading whitespace, and only whitespace follows it. */
  lemma TrimmedSpan(s: string, t: string, r: string)
    requires IsSuffix(t, s) && (forall k | 0 <= k < |s| - |t| :: IsSpace(s[k]))
    requires IsPrefix(r, t) && (forall k | |r| <= k < |t| :: IsSpace(t[k]))
    ensures |s| - |t| <= |s| - |r|
    ensures OccursAt(s, r, |s| - |t|)
    ensures forall k | 0 <= k < |s| - |t| :: IsSpace(s[k])
    ensures forall k | |s| - |t| + |r| <= k < |s| :: IsSpace(s[k])
  {
    var i := |s| - |t|;
    assert s[i..] == t;
    assert t[..|r|] == r;
    forall k | i + |r| <= k < |s|
      ensures IsSpace(s[k])
    {
      assert s[k] == t[k - i];
    }
  }

  /** A text that neither starts nor ends with whitespace is its own trimmed form. */
  lemma TrimOfTrimmed(s: string)
    requires s != [] ==> !IsSpace(s[0]) && !IsSpace(s[|s| - 1])
    ensures Trim(s) == s
  {
  }

  /** Trimming adds no character. */
  lemma TrimKeepsOut(s: string, c: char)
    requires c !in s
    ensures c !in Trim(s)
  {
    var r := Trim(s);
    var i :| 0 <= i <= |s| - |r| && OccursAt(s, r, i);
    assert forall k | 0 <= k < |r| :: r[k] == s[i + k];
  }

  /** QString::split(c).last(): the text after the last `c`, or the whole of `s` when it has none. */
  function AfterLast(s: string, c: char): (r: string)
    ensures IsSuffix(r, s)
    ensures c !in r
    ensures |r| < |s| ==> s[|s| - |r| - 1] == c
  {
    if s == [] then []
    else if s[|s| - 1] == c then []
    else AfterLast(s[..|s| - 1], c) + [s[|s| - 1]]
  }

  /** The last field of a `c`-separated list is the text after its last separator. */
  lemma {:induction false} AfterLastOfJoin(init: string, c: char, last: string)
    requires c !in last
    ensures AfterLast(init + [c] + last, c) == last
    decreases |last|
  {
    var s := init + [c] + last;
    if last != [] {
      var shorter := last[..|last| - 1];
      assert s[..|s| - 1] == init + [c] + shorter;
      AfterLastOfJoin(init, c, shorter);
      assert shorter + [last[|last| - 1]] == last;
    }
  }

  // ---------------------------------------------------------------- numbers

  predicate IsDigit(c: char) {
    '0' <= c <= '9'
  }

  predicate AllDigits(s: string) {
    forall k | 0 <= k < |s| :: IsDigit(s[k])
  }

  /** The value of a string of decimal digits (0 for the empty string). */
  function DigitsValue(s: string): nat
    requires AllDigits(s)
  {
    if s == [] then 0
    else DigitsValue(s[..|s| - 1]) * 10 + (s[|s| - 1] as int - '0' as int)
  }

  /** QString::number(n) for a non-negative integer: its decimal digits, no leading zero. */
  function NumberText(n: nat): (t: string)
    ensures t != [] && AllDigits(t)
    ensures |t| > 1 ==> t[0] != '0'
    ensures DigitsValue(t) == n
  {
    var d := ['0' + (n % 10) as char];
    if n < 10 then d
    else
      var high := NumberText(n / 10);
      var t := high + d;
      assert t[..|t| - 1] == high;
      t
  }

  const IntMax: nat := 0x7fff_ffff

  /**
   * QString::toInt on a string the caller knows to be all digits: its value,
   * or 0 (the failure value) when it is empty or does not fit a 32-bit int.
   */
  function ToInt(s: string): (n: nat)
    requires AllDigits(s)
    ensures n <= IntMax
    ensures n != 0 ==> n == DigitsValue(s)
    ensures DigitsValue(s) <= IntMax ==> n == DigitsValue(s)
    ensures DigitsValue(s) > IntMax ==> n == 0
  {
    if DigitsValue(s) <= IntMax then DigitsValue(s) else 0
  }

  /** toInt reads back the text of any number that fits an int. */
  lemma ToIntOfNumberText(n: nat)
    requires n <= IntMax
    ensures ToInt(NumberText(n)) == n
  {
  }

  // ---------------------------------------------------------------- QString::arg

  /** The number n of the place marker "%n" (n one digit, 1 to 9) that starts `s`, or 0. */
  function MarkerAt(s: string): (n: nat)
    ensures n <= 9
  {
    if |s| >= 2 && s[0] == '%' && '1' <= s[1] <= '9' then s[1] as int - '0' as int else 0
  }

  /** The lowest place-marker number in `s`; 10 when `s` holds none. */
  function LowestMarker(s: string): (n: nat)
    ensures 1 <= n <= 10
    ensures MarkerAt(s) != 0 ==> n <= MarkerAt(s)
  {
    if s == [] then 10
    else
      var here, later := MarkerAt(s), LowestMarker(s[1..]);
      if here != 0 && here < later then here else later
  }

  /** `s` with every place marker "%n" replaced by `v`. */
  function ReplaceMarker(s: string, n: nat, v: string): string
    requires 1 <= n
    decreases |s|
  {
    if |s| < 2 then s
    else if MarkerAt(s) == n then v + ReplaceMarker(s[2..], n, v)
    else [s[0]] + ReplaceMarker(s[1..], n, v)
  }

  /**
   * QString::arg(v): every occurrence of the lowest-numbered place marker is
   * replaced by `v`; a string without place markers is returned unchanged.
   */
  function Arg(s: string, v: string): string {
    var n := LowestMarker(s);
    if n == 10 then s else ReplaceMarker(s, n, v)
  }

  /** A prefix without '%' holds no place marker and is copied through by ReplaceMarker. */
  lemma PercentFreePrefix(x: string, y: string, n: nat, v: string)
    requires '%' !in x && 1 <= n
    ensures LowestMarker(x + y) == LowestMarker(y)
    ensures ReplaceMarker(x + y, n, v) == x + ReplaceMarker(y, n, v)
  {
    PercentFreeLowest(x, y);
    PercentFreeReplace(x, y, n, v);
  }

  /** The lowest marker part of the lemma above. */
  lemma {:induction false} PercentFreeLowest(x: string, y: string)
    requires '%' !in x
    ensures LowestMarker(x + y) == LowestMarker(y)
  {
    if x != [] {
      var s := x + y;
      assert s[0] == x[0] && x[0] != '%' && s[1..] == x[1..] + y;
      assert MarkerAt(s) == 0;
      PercentFreeLowest(x[1..], y);
    } else {
      assert x + y == y;
    }
  }

  /** The replacement part of the lemma above. */
  lemma {:induction false} PercentFreeReplace(x: string, y: string, n: nat, v: string)
    requires '%' !in x && 1 <= n
    ensures ReplaceMarker(x + y, n, v) == x + ReplaceMarker(y, n, v)
  {
    if x != [] {
      var s := x + y;
      assert s[0] == x[0] && x[0] != '%' && s[1..] == x[1..] + y;
      assert MarkerAt(s) == 0;
      PercentFreeReplace(x[1..], y, n, v);
      if |s| >= 2 {
        assert ReplaceMarker(s, n, v) == [x[0]] + (x[1..] + ReplaceMarker(y, n, v));
        assert [x[0]] + x[1..] == x;
      } else {
        assert x == [x[0]] && y == [];
      }
    } else {
      assert x + y == y;
    }
  }

  /** A marker number below every marker of `y` replaces nothing in `y`. */
  lemma {:induction false} NoMarkerBelow(y: string, n: nat, v: string)
    requires 1 <= n < LowestMarker(y)
    ensures ReplaceMarker(y, n, v) == y
    decreases |y|
  {
    if |y| >= 2 {
      assert MarkerAt(y) != n;
      NoMarkerBelow(y[1..], n, v);
      assert [y[0]] + y[1..] == y;
    }
  }

  /** The marker "%d" that starts a string counts as the lowest one unless `rest` has a lower one. */
  lemma MarkerThenRest(d: char, n: nat, rest: string)
    requires '1' <= d <= '9' && n == d as int - '0' as int
    ensures LowestMarker(['%', d] + rest) == if n < LowestMarker(rest) then n else LowestMarker(rest)
  {
    var s := ['%', d] + rest;
    assert s[1..] == [d] + rest;
    PercentFreePrefix([d], rest, 1, "");
  }

  /** `.arg(v)` on "%d" followed by text whose markers are all higher than d. */
  lemma ArgOnLeadingMarker(d: char, n: nat, rest: string, v: string)
    requires '1' <= d <= '9' && n == d as int - '0' as int
    requires n < LowestMarker(rest)
    ensures LowestMarker(['%', d] + rest) == n
    ensures ReplaceMarker(['%', d] + rest, n, v) == v + rest
  {
    var tail := ['%', d] + rest;
    MarkerThenRest(d, n, rest);
    assert MarkerAt(tail) == n;
    assert tail[2..] == rest;
    assert ReplaceMarker(tail, n, v) == v + ReplaceMarker(rest, n, v);
    NoMarkerBelow(rest, n, v);
  }

  /** One `.arg(v)` step on a string whose lowest marker is "%d", sitting after a '%'-free prefix `x`. */
  lemma ArgStep(x: string, d: char, n: nat, rest: string, v: string)
    requires '%' !in x && '1' <= d <= '9' && n == d as int - '0' as int
    requires n < LowestMarker(rest)
    ensures Arg(x + (['%', d] + rest), v) == x + (v + rest)
  {
    ArgOnLeadingMarker(d, n, rest, v);
    PercentFreePrefix(x, ['%', d] + rest, n, v);
  }
}
