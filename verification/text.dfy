/**
 * String operations the application borrows from JavaScript: the `\s`
 * character class, `trim`, `toLowerCase` (ASCII part), `join` and
 * `slice(0, n)`, plus an "occurs in" relation used to state what a prompt
 * contains without fixing its template text.
 */
module Text {

  /** JavaScript's `\s` class; `String.prototype.trim` strips exactly these characters. */
  predicate IsSpace(c: char) {
    || c == ' ' || c == '\t' || c == '\n' || c == '\r'
    || c == '\U{000B}' || c == '\U{000C}' || c == '\U{00A0}' || c == '\U{1680}'
    || ('\U{2000}' <= c <= '\U{200A}')
    || c == '\U{2028}' || c == '\U{2029}' || c == '\U{202F}' || c == '\U{205F}'
    || c == '\U{3000}' || c == '\U{FEFF}'
  }

  /** `toLowerCase` on one character, for the ASCII letters; every other character is kept. */
  function Lower(c: char): (d: char)
    ensures IsSpace(d) <==> IsSpace(c)
    ensures d == '-' <==> c == '-'
    ensures !('A' <= d <= 'Z')
  {
    if 'A' <= c <= 'Z' then (c as int + 32) as char else c
  }

  function LowerAll(s: string): (r: string)
    ensures |r| == |s|
    ensures forall i :: 0 <= i < |s| ==> r[i] == Lower(s[i])
  {
    seq(|s|, i requires 0 <= i < |s| => Lower(s[i]))
  }

  predicate AllSpace(s: string) {
    forall i :: 0 <= i < |s| ==> IsSpace(s[i])
  }

  predicate NoSpace(s: string) {
    forall i :: 0 <= i < |s| ==> !IsSpace(s[i])
  }

  /** Length of the whitespace run that starts `s`. */
  function LeadingSpaces(s: string): (n: nat)
    ensures n <= |s|
    ensures AllSpace(s[..n])
    ensures n < |s| ==> !IsSpace(s[n])
    decreases |s|
  {
    if |s| == 0 || !IsSpace(s[0]) then 0
    else
      var m := LeadingSpaces(s[1..]);
      assert forall i :: 1 <= i < m + 1 ==> s[i] == s[1..][i - 1];
      1 + m
  }

  /** Length of the whitespace run that ends `s`. */
  function TrailingSpaces(s: string): (n: nat)
    ensures n <= |s|
    ensures AllSpace(s[|s| - n..])
    ensures n < |s| ==> !IsSpace(s[|s| - n - 1])
    decreases |s|
  {
    if |s| == 0 || !IsSpace(s[|s| - 1]) then 0
    else
      var p := s[..|s| - 1];
      var m := TrailingSpaces(p);
      assert forall i :: |s| - m - 1 <= i < |s| - 1 ==> s[i] == p[i];
      1 + m
  }

  /**
   * `String.prototype.trim`: the result is what is left of `s` once the
   * whitespace at both ends is cut off.
   */
  function Trim(s: string): (r: string)
    ensures r == "" <==> AllSpace(s)
    ensures r != "" ==> !IsSpace(r[0]) && !IsSpace(r[|r| - 1])
    ensures exists i, j :: 0 <= i <= j <= |s| && r == s[i..j] && AllSpace(s[..i]) && AllSpace(s[j..])
  {
    var a := LeadingSpaces(s);
    if a == |s| then
      assert s[..a] == s;
      assert s == s[0..0] + s[..a][0..] && s[0..0] == "";
      ""
    else
      var b := TrailingSpaces(s);
      assert !IsSpace(s[a]);
      assert b < |s| - a;
      var r := s[a..|s| - b];
      assert r[0] == s[a] && r[|r| - 1] == s[|s| - b - 1];
      assert !AllSpace(s) by { assert !IsSpace(s[a]); }
      r
  }

  /** Trimming twice is trimming once. */
  lemma TrimIdempotent(s: string)
    ensures Trim(Trim(s)) == Trim(s)
  {
    var r := Trim(s);
    if r != "" {
      assert LeadingSpaces(r) == 0;
      assert TrailingSpaces(r) == 0;
      assert r[0..|r|] == r;
    }
  }

  /** `t` occurs in `s` starting at position `k`. */
  predicate OccursAt(t: string, s: string, k: int) {
    0 <= k <= |s| - |t| && s[k..k + |t|] == t
  }

  /** `t` occurs in `s` as a contiguous piece. */
  ghost predicate IsInfix(t: string, s: string) {
    exists k :: OccursAt(t, s, k)
  }

  lemma InfixSelf(t: string)
    ensures IsInfix(t, t)
  {
    assert t[0..|t|] == t;
    assert OccursAt(t, t, 0);
  }

  lemma InfixLeft(t: string, a: string, b: string)
    requires IsInfix(t, a)
    ensures IsInfix(t, a + b)
  {
    var k :| OccursAt(t, a, k);
    assert (a + b)[k..k + |t|] == a[k..k + |t|];
    assert OccursAt(t, a + b, k);
  }

  lemma InfixRight(t: string, a: string, b: string)
    requires IsInfix(t, b)
    ensures IsInfix(t, a + b)
  {
    var k :| OccursAt(t, b, k);
    assert (a + b)[|a| + k..|a| + k + |t|] == b[k..k + |t|];
    assert OccursAt(t, a + b, |a| + k);
  }

  lemma InfixTransitive(t: string, u: string, s: string)
    requires IsInfix(t, u) && IsInfix(u, s)
    ensures IsInfix(t, s)
  {
    var k :| OccursAt(u, s, k);
    var m :| OccursAt(t, u, m);
    forall i | 0 <= i < |t|
      ensures s[k + m + i] == t[i]
    {
      assert s[k..k + |u|][m + i] == u[m + i];
      assert u[m..m + |t|][i] == t[i];
    }
    assert s[k + m..k + m + |t|] == t;
    assert OccursAt(t, s, k + m);
  }

  /** The pieces of a template, glued together in order. */
  function Concat(parts: seq<string>): string {
    if |parts| == 0 then "" else parts[0] + Concat(parts[1..])
  }

  /** Every piece of a template occurs in the assembled text. */
  lemma {:induction false} PartInConcat(parts: seq<string>, i: nat)
    requires i < |parts|
    ensures IsInfix(parts[i], Concat(parts))
  {
    if i == 0 {
      InfixSelf(parts[0]);
      InfixLeft(parts[0], parts[0], Concat(parts[1..]));
    } else {
      PartInConcat(parts[1..], i - 1);
      InfixRight(parts[i], parts[0], Concat(parts[1..]));
    }
  }

  /** `Array.prototype.join(sep)`. */
  function Join(items: seq<string>, sep: string): string {
    if |items| == 0 then ""
    else if |items| == 1 then items[0]
    else items[0] + sep + Join(items[1..], sep)
  }

  /** Every item of a joined list occurs in the joined text. */
  lemma {:induction false} ItemInJoin(items: seq<string>, sep: string, i: nat)
    requires i < |items|
    ensures IsInfix(items[i], Join(items, sep))
  {
    if |items| == 1 {
      InfixSelf(items[0]);
    } else if i == 0 {
      InfixSelf(items[0]);
      InfixLeft(items[0], items[0], sep + Join(items[1..], sep));
      assert items[0] + (sep + Join(items[1..], sep)) == Join(items, sep);
    } else {
      ItemInJoin(items[1..], sep, i - 1);
      InfixRight(items[i], items[0] + sep, Join(items[1..], sep));
    }
  }

  /** `Array.prototype.slice(0, n)`: the first `n` elements, or all of them when there are fewer. */
  function Take<T>(s: seq<T>, n: nat): (r: seq<T>)
    ensures |r| == if |s| < n then |s| else n
    ensures r == s[..|r|]
  {
    if |s| < n then s else s[..n]
  }
}
