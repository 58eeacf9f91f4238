/** `str.split("/")` and its laws. */
module Paths {

  /** The pieces between slashes; always at least one. */
  function Split(s: string): (segs: seq<string>)
    ensures |segs| >= 1
  {
    if s == "" then [""]
    else
      var rest := Split(s[1..]);
      if s[0] == '/' then [""] + rest else [[s[0]] + rest[0]] + rest[1..]
  }

  predicate NoSlash(s: string) {
    '/' !in s
  }

  lemma {:induction false} SplitNoSlash(s: string)
    requires NoSlash(s)
    ensures Split(s) == [s]
  {
    if s != "" {
      SplitNoSlash(s[1..]);
      assert s == [s[0]] + s[1..];
    }
  }

  lemma {:induction false} SplitConcat(a: string, b: string)
    ensures Split(a + "/" + b) == Split(a) + Split(b)
  {
    if a == "" {
      assert a + "/" + b == ['/'] + b;
    } else {
      assert (a + "/" + b)[1..] == a[1..] + "/" + b;
      SplitConcat(a[1..], b);
    }
  }

  /** A path can be cut at any of its slashes. */
  lemma {:induction false} SplitAt(s: string, k: nat) returns (a: string, b: string)
    requires 0 < k < |Split(s)|
    ensures s == a + "/" + b && Split(a) == Split(s)[..k] && Split(b) == Split(s)[k..]
    decreases |s|
  {
    if s[0] == '/' && k == 1 {
      a, b := "", s[1..];
      assert s == "" + "/" + b;
    } else {
      var a', b' := SplitAt(s[1..], if s[0] == '/' then k - 1 else k);
      a, b := [s[0]] + a', b';
      assert s == [s[0]] + s[1..];
      CutLater(s[0], a', b', if s[0] == '/' then k - 1 else k);
    }
  }

  /** A cut of `a/b` stays a cut when a character is put in front. */
  lemma CutLater(c: char, a: string, b: string, k: nat)
    requires var t := a + "/" + b;
      0 < k < |Split(t)| && Split(a) == Split(t)[..k] && Split(b) == Split(t)[k..]
    ensures var s, j := [c] + (a + "/" + b), if c == '/' then k + 1 else k;
      && s == [c] + a + "/" + b
      && j < |Split(s)| && Split([c] + a) == Split(s)[..j] && Split(b) == Split(s)[j..]
  {
    SplitFirst(c, a);
    SplitFirst(c, a + "/" + b);
    AddFirst(c, a, b);
    if c == '/' {
      ConsCut("", Split(a + "/" + b), k);
    } else {
      HeadCut([c] + Split(a + "/" + b)[0], Split(a + "/" + b), k);
    }
  }

  lemma AddFirst(c: char, a: string, b: string)
    ensures [c] + (a + "/" + b) == [c] + a + "/" + b
  {
  }

  lemma ConsCut<T>(x: T, s: seq<T>, k: nat)
    requires k <= |s|
    ensures ([x] + s)[..k + 1] == [x] + s[..k] && ([x] + s)[k + 1..] == s[k..]
  {
  }

  lemma HeadCut<T>(x: T, s: seq<T>, k: nat)
    requires 0 < k <= |s|
    ensures ([x] + s[1..])[..k] == [x] + s[..k][1..] && ([x] + s[1..])[k..] == s[k..]
  {
  }

  /** `Split` of a string by its first character. */
  lemma SplitFirst(c: char, s: string)
    ensures Split([c] + s) == if c == '/' then [""] + Split(s) else [[c] + Split(s)[0]] + Split(s)[1..]
  {
    assert ([c] + s)[1..] == s;
  }

  /** `Split` loses nothing: equal segments, equal strings. */
  lemma {:induction false} SplitInjective(s: string, t: string)
    requires Split(s) == Split(t)
    ensures s == t
    decreases |Split(s)|
  {
    if |Split(s)| == 1 {
      OneSegment(s);
      OneSegment(t);
    } else {
      var a, b := SplitAt(s, 1);
      var c, d := SplitAt(t, 1);
      OneSegment(a);
      OneSegment(c);
      SplitInjective(b, d);
    }
  }

  lemma {:induction false} OneSegment(s: string)
    requires |Split(s)| == 1
    ensures Split(s) == [s]
  {
    if s != "" {
      OneSegment(s[1..]);
      assert s == [s[0]] + s[1..];
    }
  }
}
