/** The few string operations the source relies on: case folding, splitting at the
    first separator, and the code-point order used by `sorted`. */
module PyStrings {
  import opened Wrappers

  function Lower(c: char): char {
    if 'A' <= c <= 'Z' then (c as int + 32) as char else c
  }

  /** Case folding, on the ASCII letters. */
  function Casefold(s: string): (r: string)
    ensures |r| == |s|
  {
    seq(|s|, i requires 0 <= i < |s| => Lower(s[i]))
  }

  lemma CasefoldIdempotent(s: string)
    ensures Casefold(Casefold(s)) == Casefold(s)
  {
    var once, twice := Casefold(s), Casefold(Casefold(s));
    forall i | 0 <= i < |s| ensures twice[i] == once[i] {
      assert once[i] == Lower(s[i]);
    }
  }

  /** The same letter, in either case, or the same other character. */
  predicate SameLetter(a: char, b: char) {
    || a == b
    || ('A' <= a <= 'Z' && b as int == a as int + 32)
    || ('A' <= b <= 'Z' && a as int == b as int + 32)
  }

  /** Names that differ at most in the case of their letters. */
  predicate SameUpToCase(s: string, t: string) {
    |s| == |t| && forall i :: 0 <= i < |s| ==> SameLetter(s[i], t[i])
  }

  /** A folded string has no capitals: each became its own small letter, and nothing else changed. */
  lemma CasefoldSpelled(s: string, i: nat)
    requires i < |s|
    ensures !('A' <= Casefold(s)[i] <= 'Z')
    ensures 'A' <= s[i] <= 'Z' ==> Casefold(s)[i] as int - 'a' as int == s[i] as int - 'A' as int
    ensures !('A' <= s[i] <= 'Z') ==> Casefold(s)[i] == s[i]
  {
  }

  /** Folding identifies exactly the names that differ in case alone. */
  lemma CasefoldExactly(s: string, t: string)
    ensures Casefold(s) == Casefold(t) <==> SameUpToCase(s, t)
  {
    forall i | 0 <= i < |s| && i < |t| ensures Casefold(s)[i] == Casefold(t)[i] <==> SameLetter(s[i], t[i]) {
      CasefoldSpelled(s, i);
      CasefoldSpelled(t, i);
    }
    assert Casefold(s) == Casefold(t)
      <==> |s| == |t| && forall i :: 0 <= i < |s| && i < |t| ==> Casefold(s)[i] == Casefold(t)[i];
  }

  /** A folded string is the same name in small letters. */
  lemma CasefoldSmall(s: string)
    ensures SameUpToCase(Casefold(s), s)
    ensures forall c :: c in Casefold(s) ==> !('A' <= c <= 'Z')
  {
    CasefoldIdempotent(s);
    CasefoldExactly(Casefold(s), s);
    forall c | c in Casefold(s) ensures !('A' <= c <= 'Z') {
      var i :| 0 <= i < |s| && Casefold(s)[i] == c;
      CasefoldSpelled(s, i);
    }
  }

  /** Index of the first `c` in `s`, or `|s|`. */
  function FirstIndex(s: string, c: char): (i: nat)
    ensures i <= |s|
    ensures c !in s[..i]
    ensures i < |s| ==> s[i] == c
  {
    if s == [] || s[0] == c then 0 else
      var i := 1 + FirstIndex(s[1..], c);
      assert s[..i] == [s[0]] + s[1..][..i - 1];
      i
  }

  /** `s.split(c, 1)[0]` */
  function Before(s: string, c: char): string {
    s[..FirstIndex(s, c)]
  }

  /** The second part of `s.split(c, 1)`, when there is one. */
  function After(s: string, c: char): Option<string> {
    var i := FirstIndex(s, c);
    if i < |s| then Some(s[i + 1..]) else None
  }

  /** `s.split(c, 1)[-1]` */
  function LastPart(s: string, c: char): string {
    match After(s, c)
    case Some(t) => t
    case None => s
  }

  /** The first separator of a joined string sits at the seam exactly when the left part
      contains no separator. */
  lemma SplitJoined(a: string, c: char, b: string)
    ensures Before(a + [c] + b, c) == a && After(a + [c] + b, c) == Some(b) <==> c !in a
    ensures After(a + [c] + b, c).Some?
  {
    var s := a + [c] + b;
    var i := FirstIndex(s, c);
    assert s[|a|] == c && s[..|a|] == a;
    assert forall k :: 0 <= k < i ==> s[k] in s[..i];
    assert forall k :: 0 <= k < |a| ==> s[k] == a[k];
    assert i == |a| ==> s[i + 1..] == b;
    assert i < |a| ==> |s[..i]| != |a|;
  }

  /** What follows the first separator, or the whole string when there is none. */
  lemma LastPartSplit(a: string, c: char, b: string)
    ensures c !in a ==> LastPart(a + [c] + b, c) == b && LastPart(a, c) == a
  {
    SplitJoined(a, c, b);
  }

  /** A key lies in a namespace when it is the namespace, or continues it after a dot. */
  predicate Under(key: string, ns: string) {
    '.' !in ns && (key == ns || ns + "." <= key)
  }

  lemma BeforeIsNamespace(key: string, ns: string)
    ensures Before(key, '.') == ns <==> Under(key, ns)
  {
    var i := FirstIndex(key, '.');
    if Before(key, '.') == ns {
      assert i < |key| ==> key == ns + "." + key[i + 1..];
    }
    if '.' !in ns && ns + "." <= key {
      var rest := key[|ns| + 1..];
      assert key == ns + ['.'] + rest;
      SplitJoined(ns, '.', rest);
    }
  }

  /** Code-point order on strings. */
  predicate AtMost(a: string, b: string) {
    || a == []
    || (b != [] && (a[0] < b[0] || (a[0] == b[0] && AtMost(a[1..], b[1..]))))
  }

  /** The strings first differ at `k`, where `a` has the smaller character. */
  predicate SmallerAt(a: string, b: string, k: nat) {
    k < |a| && k < |b| && a[..k] == b[..k] && a[k] < b[k]
  }

  lemma SmallerAtNext(a: string, b: string, k: nat)
    requires a != [] && b != []
    ensures SmallerAt(a, b, k + 1) <==> a[0] == b[0] && SmallerAt(a[1..], b[1..], k)
  {
    if k + 1 < |a| && k + 1 < |b| {
      assert a[..k + 1] == [a[0]] + a[1..][..k] && b[..k + 1] == [b[0]] + b[1..][..k];
      assert a[..k + 1] == b[..k + 1] ==> a[1..][..k] == a[..k + 1][1..] == b[1..][..k];
    }
  }

  /** `a` is a prefix of `b`, or smaller at the first place where they differ. */
  lemma {:induction false} AtMostSpelled(a: string, b: string)
    ensures AtMost(a, b) <==> a <= b || exists k: nat :: SmallerAt(a, b, k)
  {
    if a != [] && b != [] {
      AtMostSpelled(a[1..], b[1..]);
      assert a <= b <==> a[0] == b[0] && a[1..] <= b[1..];
      assert SmallerAt(a, b, 0) <==> a[0] < b[0];
      if k: nat :| SmallerAt(a[1..], b[1..], k) { SmallerAtNext(a, b, k); }
      if k: nat :| SmallerAt(a, b, k) {
        if k > 0 { SmallerAtNext(a, b, k - 1); }
      }
    }
  }

  lemma AtMostTotal(a: string, b: string)
    ensures AtMost(a, b) || AtMost(b, a)
    ensures AtMost(a, b) && AtMost(b, a) ==> a == b
    ensures a == b ==> AtMost(a, b)
  {
    if a != [] && b != [] {
      AtMostTotal(a[1..], b[1..]);
      assert a == [a[0]] + a[1..] && b == [b[0]] + b[1..];
    }
  }

  lemma {:induction false} AtMostTransitive(a: string, b: string, c: string)
    requires AtMost(a, b) && AtMost(b, c)
    ensures AtMost(a, c)
  {
    if a != [] && a[0] == b[0] && b[0] == c[0] {
      AtMostTransitive(a[1..], b[1..], c[1..]);
    }
  }
}
