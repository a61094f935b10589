/** Character-level string operations shared by the server and client models:
    PHP's default `trim()` and decimal digits. */
module Text {

  /** The characters PHP's `trim()` strips when given no character list:
      space, tab, line feed, carriage return, NUL and vertical tab. */
  predicate IsTrimChar(c: char) {
    c == ' ' || c == '\t' || c == '\n' || c == '\r' || c == '\0' || c == '\U{000B}'
  }

  predicate AllTrimChars(s: string) {
    forall i :: 0 <= i < |s| ==> IsTrimChar(s[i])
  }

  /** Neither end of `s` is a trim character. */
  predicate Trimmed(s: string) {
    s == [] || (!IsTrimChar(s[0]) && !IsTrimChar(s[|s| - 1]))
  }

  predicate IsDigit(c: char) {
    '0' <= c <= '9'
  }

  predicate AllDigits(s: string) {
    forall i :: 0 <= i < |s| ==> IsDigit(s[i])
  }

  /** `s` without its leading trim characters. */
  function TrimLeft(s: string): (r: string)
    ensures |r| <= |s| && r == s[|s| - |r|..]
    ensures forall k :: 0 <= k < |s| - |r| ==> IsTrimChar(s[k])
    ensures r == [] || !IsTrimChar(r[0])
  {
    if |s| > 0 && IsTrimChar(s[0]) then
      var r := TrimLeft(s[1..]);
      assert forall k :: 1 <= k < |s| - |r| ==> s[k] == s[1..][k - 1];
      r
    else s
  }

  /** `s` without its trailing trim characters. */
  function TrimRight(s: string): (r: string)
    ensures |r| <= |s| && r == s[..|r|]
    ensures forall k :: |r| <= k < |s| ==> IsTrimChar(s[k])
    ensures r == [] || !IsTrimChar(r[|r| - 1])
  {
    if |s| > 0 && IsTrimChar(s[|s| - 1]) then
      var r := TrimRight(s[..|s| - 1]);
      assert forall k :: |r| <= k < |s| - 1 ==> s[k] == s[..|s| - 1][k];
      r
    else s
  }

  /** PHP `trim($s)`: strips the trim characters at both ends. */
  function Trim(s: string): (r: string)
    ensures Trimmed(r)
    ensures |r| <= |s|
  {
    TrimRight(TrimLeft(s))
  }

  /** `Trim(s)` is the middle of `s`, with only trim characters cut on either side. */
  lemma TrimSplit(s: string) returns (i: nat)
    ensures i + |Trim(s)| <= |s|
    ensures Trim(s) == s[i..i + |Trim(s)|]
    ensures forall k :: 0 <= k < i ==> IsTrimChar(s[k])
    ensures forall k :: i + |Trim(s)| <= k < |s| ==> IsTrimChar(s[k])
  {
    var t := TrimLeft(s);
    i := |s| - |t|;
    var r := TrimRight(t);
    SliceOfSuffix(s, i, |r|);
    assert forall k :: i + |r| <= k < |s| ==> s[k] == t[k - i];
  }

  /** Slicing a suffix is slicing the whole. */
  lemma SliceOfSuffix(s: string, i: nat, n: nat)
    requires i + n <= |s|
    ensures s[i..][..n] == s[i..i + n]
  {
  }

  /** Every character of `Trim(s)` occurs in `s`. */
  lemma TrimChars(s: string)
    ensures forall k :: 0 <= k < |Trim(s)| ==> Trim(s)[k] in s
  {
    var i := TrimSplit(s);
    var r := Trim(s);
    forall k | 0 <= k < |r|
      ensures r[k] in s
    {
      assert r[k] == s[i + k];
    }
  }

  /** Leading trim characters in front of a word that does not start with one are
      exactly what `TrimLeft` removes. */
  lemma {:induction false} TrimLeftStrips(p: string, t: string)
    requires AllTrimChars(p)
    requires t == [] || !IsTrimChar(t[0])
    ensures TrimLeft(p + t) == t
  {
    if p == [] {
      assert p + t == t;
    } else {
      assert (p + t)[1..] == p[1..] + t;
      TrimLeftStrips(p[1..], t);
    }
  }

  /** Trailing trim characters after a word that does not end with one are exactly
      what `TrimRight` removes. */
  lemma {:induction false} TrimRightStrips(t: string, q: string)
    requires AllTrimChars(q)
    requires t == [] || !IsTrimChar(t[|t| - 1])
    ensures TrimRight(t + q) == t
  {
    if q == [] {
      assert t + q == t;
    } else {
      var q' := q[..|q| - 1];
      assert (t + q)[..|t + q| - 1] == t + q';
      TrimRightStrips(t, q');
    }
  }

  /** `Trim` removes exactly the trim characters around a trimmed core. */
  lemma TrimStrips(p: string, m: string, q: string)
    requires AllTrimChars(p) && AllTrimChars(q)
    requires Trimmed(m)
    ensures Trim(p + m + q) == m
  {
    if m == [] {
      assert p + m + q == p + q;
      TrimLeftStrips(p + q, []);
      assert p + q + [] == p + q;
    } else {
      assert p + m + q == p + (m + q);
      TrimLeftStrips(p, m + q);
      TrimRightStrips(m, q);
    }
  }

  /** Trimming twice is trimming once. */
  lemma TrimIdempotent(s: string)
    ensures Trim(Trim(s)) == Trim(s)
  {
    var m := Trim(s);
    assert [] + m + [] == m;
    TrimStrips([], m, []);
  }
}
