/** Regular expressions with their textbook meaning, for the key patterns of core/contract.py. */
module Regex {

  datatype CharClass = KeyChar | Only(c: char)

  /** `[A-Za-z0-9._-]` */
  predicate IsKeyChar(c: char) {
    'A' <= c <= 'Z' || 'a' <= c <= 'z' || '0' <= c <= '9' || c == '.' || c == '_' || c == '-'
  }

  lemma KeyChars(c: char)
    ensures IsKeyChar(c) <==>
      c in "ABCDEFGHIJKLMNOPQRSTUVWXYZ" || c in "abcdefghijklmnopqrstuvwxyz" || c in "0123456789" || c in "._-"
  {
  }

  predicate InClass(c: char, cls: CharClass) {
    match cls
    case KeyChar => IsKeyChar(c)
    case Only(d) => c == d
  }

  predicate AllIn(s: string, cls: CharClass) {
    forall i :: 0 <= i < |s| ==> InClass(s[i], cls)
  }

  datatype Regex =
    | Empty
    | One(cls: CharClass)
    | Cat(left: Regex, right: Regex)
    | Alt(first: Regex, second: Regex)
    | Star(body: Regex)

  function Plus(r: Regex): Regex {
    Cat(r, Star(r))
  }

  function Literal(t: string): Regex {
    if t == "" then Empty else Cat(One(Only(t[0])), Literal(t[1..]))
  }

  /** `fullmatch`: the whole of `s` is in the language of `r`. */
  ghost predicate Matches(r: Regex, s: string)
    decreases r, |s|
  {
    match r
    case Empty => s == ""
    case One(cls) => |s| == 1 && InClass(s[0], cls)
    case Cat(a, b) => exists i :: 0 <= i <= |s| && Matches(a, s[..i]) && Matches(b, s[i..])
    case Alt(a, b) => Matches(a, s) || Matches(b, s)
    case Star(a) => s == "" || exists i :: 0 < i <= |s| && Matches(a, s[..i]) && Matches(r, s[i..])
  }

  lemma CatIntro(a: Regex, b: Regex, x: string, y: string)
    requires Matches(a, x) && Matches(b, y)
    ensures Matches(Cat(a, b), x + y)
  {
    assert (x + y)[..|x|] == x && (x + y)[|x|..] == y;
  }

  lemma CatElim(a: Regex, b: Regex, s: string) returns (x: string, y: string)
    requires Matches(Cat(a, b), s)
    ensures s == x + y && Matches(a, x) && Matches(b, y)
  {
    var i :| 0 <= i <= |s| && Matches(a, s[..i]) && Matches(b, s[i..]);
    x, y := s[..i], s[i..];
  }

  lemma StarIntro(a: Regex, x: string, y: string)
    requires x != "" && Matches(a, x) && Matches(Star(a), y)
    ensures Matches(Star(a), x + y)
  {
    assert (x + y)[..|x|] == x && (x + y)[|x|..] == y;
  }

  lemma StarElim(a: Regex, s: string) returns (x: string, y: string)
    requires s != "" && Matches(Star(a), s)
    ensures s == x + y && x != "" && Matches(a, x) && Matches(Star(a), y)
  {
    var i :| 0 < i <= |s| && Matches(a, s[..i]) && Matches(Star(a), s[i..]);
    x, y := s[..i], s[i..];
  }

  lemma {:induction false} LiteralMatches(t: string, s: string)
    ensures Matches(Literal(t), s) <==> s == t
  {
    if t != "" {
      if Matches(Literal(t), s) {
        var x, y := CatElim(One(Only(t[0])), Literal(t[1..]), s);
        LiteralMatches(t[1..], y);
      }
      if s == t {
        LiteralMatches(t[1..], t[1..]);
        assert Matches(One(Only(t[0])), [t[0]]);
        CatIntro(One(Only(t[0])), Literal(t[1..]), [t[0]], t[1..]);
        assert [t[0]] + t[1..] == t;
      }
    }
  }

  lemma {:induction false} StarOfClass(cls: CharClass, s: string)
    ensures Matches(Star(One(cls)), s) <==> AllIn(s, cls)
    decreases |s|
  {
    if s != "" {
      if Matches(Star(One(cls)), s) {
        var x, y := StarElim(One(cls), s);
        StarOfClass(cls, y);
      }
      if AllIn(s, cls) {
        StarOfClass(cls, s[1..]);
        assert Matches(One(cls), [s[0]]);
        StarIntro(One(cls), [s[0]], s[1..]);
        assert [s[0]] + s[1..] == s;
      }
    }
  }

  lemma PlusOfClass(cls: CharClass, s: string)
    ensures Matches(Plus(One(cls)), s) <==> s != "" && AllIn(s, cls)
  {
    if Matches(Plus(One(cls)), s) {
      var x, y := CatElim(One(cls), Star(One(cls)), s);
      StarOfClass(cls, y);
    }
    if s != "" && AllIn(s, cls) {
      StarOfClass(cls, s[1..]);
      assert Matches(One(cls), [s[0]]);
      CatIntro(One(cls), Star(One(cls)), [s[0]], s[1..]);
      assert [s[0]] + s[1..] == s;
    }
  }
}
