/** The object keys a job may name, core/contract.py: the patterns of the source against what they say
    about the slash-separated segments of a key. */
module KeyGrammar {
  import opened Regex
  import opened Paths

  // --- the patterns, as written in the source --------------------------------------------------------------

  /** `[A-Za-z0-9._-]+` */
  const SEG := Plus(One(KeyChar))

  /** `(?:/[A-Za-z0-9._-]+)*` */
  const MORE := Star(Cat(One(Only('/')), SEG))

  /** `[A-Za-z0-9._-]+(?:/[A-Za-z0-9._-]+)*` */
  const PATH := Cat(SEG, MORE)

  /** `prefix/` and then `r` */
  function Under(prefix: string, r: Regex): Regex {
    Cat(Literal(prefix + "/"), r)
  }

  /** a path, then `/word/`, then `r` */
  function Through(word: string, r: Regex): Regex {
    Cat(PATH, Cat(Literal("/" + word + "/"), r))
  }

  /** `[A-Za-z0-9._-]+\.png` */
  const PNG := Cat(SEG, Literal(".png"))

  const BUNDLE_KEY := Under("bundles", PATH)
  const LORA_KEY := Alt(Under("loras", PATH), Under("bundles", Through("loras", PATH)))
  const KEYFRAME_KEY := Under("renders", Through("keyframes", PNG))

  ghost predicate IsSafeBundleKey(key: string) {
    key != "" && Matches(BUNDLE_KEY, key) && ".." !in Split(key)
  }

  ghost predicate IsSafeLoraKey(key: string) {
    key != "" && Matches(LORA_KEY, key) && ".." !in Split(key)
  }

  ghost predicate IsSafeKeyframeKey(key: string) {
    key != "" && Matches(KEYFRAME_KEY, key) && ".." !in Split(key)
  }

  // --- what they accept ----------------------------------------------------------------------------------------

  predicate GoodSegment(seg: string) {
    seg != "" && AllIn(seg, KeyChar)
  }

  predicate SafeSegment(seg: string) {
    GoodSegment(seg) && seg != ".."
  }

  ghost predicate AllGood(segs: seq<string>) {
    forall i :: 0 <= i < |segs| ==> GoodSegment(segs[i])
  }

  ghost predicate AllSafe(segs: seq<string>) {
    forall i :: 0 <= i < |segs| ==> SafeSegment(segs[i])
  }

  lemma KeyCharsAreNoSlash(s: string)
    requires AllIn(s, KeyChar)
    ensures NoSlash(s)
  {
  }

  lemma SegMatches(s: string)
    ensures Matches(SEG, s) <==> GoodSegment(s)
  {
    PlusOfClass(KeyChar, s);
  }

  /** One `/segment` of the repeated group. */
  lemma StepMatches(s: string)
    ensures Matches(Cat(One(Only('/')), SEG), s) <==> s != "" && s[0] == '/' && GoodSegment(s[1..])
  {
    if Matches(Cat(One(Only('/')), SEG), s) {
      var x, y := CatElim(One(Only('/')), SEG, s);
      SegMatches(y);
      assert s[1..] == y;
    }
    if s != "" && s[0] == '/' && GoodSegment(s[1..]) {
      SegMatches(s[1..]);
      assert Matches(One(Only('/')), "/");
      CatIntro(One(Only('/')), SEG, "/", s[1..]);
      assert "/" + s[1..] == s;
    }
  }

  lemma {:induction false} MoreMatches(s: string)
    ensures Matches(MORE, s) <==> s == "" || (s[0] == '/' && AllGood(Split(s[1..])))
    decreases |s|
  {
    if s != "" {
      if Matches(MORE, s) {
        MoreSound(s);
      }
      if s[0] == '/' && AllGood(Split(s[1..])) {
        MoreComplete(s);
      }
    }
  }

  lemma {:induction false} MoreSound(s: string)
    requires s != "" && Matches(MORE, s)
    ensures s[0] == '/' && AllGood(Split(s[1..]))
    decreases |s|
  {
    var x, y := StarElim(Cat(One(Only('/')), SEG), s);
    StepMatches(x);
    KeyCharsAreNoSlash(x[1..]);
    SplitNoSlash(x[1..]);
    if y == "" {
      assert s[1..] == x[1..];
    } else {
      MoreSound(y);
      assert s[1..] == x[1..] + "/" + y[1..];
      SplitConcat(x[1..], y[1..]);
    }
  }

  lemma {:induction false} MoreComplete(s: string)
    requires s != "" && s[0] == '/' && AllGood(Split(s[1..]))
    ensures Matches(MORE, s)
    decreases |s|
  {
    var t := s[1..];
    if |Split(t)| == 1 {
      OneSegment(t);
      assert GoodSegment(Split(t)[0]);
      StepMatches(s);
      assert Matches(MORE, "");
      StarIntro(Cat(One(Only('/')), SEG), s, "");
      assert s + "" == s;
    } else {
      var a, b := SplitAt(t, 1);
      OneSegment(a);
      assert GoodSegment(Split(t)[0]);
      StepMatches("/" + a);
      assert ("/" + a)[1..] == a && ("/" + b)[1..] == b;
      assert AllGood(Split(b)) by {
        assert forall i :: 0 <= i < |Split(b)| ==> Split(b)[i] == Split(t)[i + 1];
      }
      MoreComplete("/" + b);
      StarIntro(Cat(One(Only('/')), SEG), "/" + a, "/" + b);
      assert s == ("/" + a) + ("/" + b);
    }
  }

  /** The workhorse: a path is a slash-separated list of good segments. */
  lemma PathMatches(s: string)
    ensures Matches(PATH, s) <==> AllGood(Split(s))
  {
    if Matches(PATH, s) {
      var x, y := CatElim(SEG, MORE, s);
      SegMatches(x);
      MoreMatches(y);
      KeyCharsAreNoSlash(x);
      SplitNoSlash(x);
      if y == "" {
        assert s == x;
      } else {
        assert s == x + "/" + y[1..];
        SplitConcat(x, y[1..]);
      }
    }
    if AllGood(Split(s)) {
      PathComplete(s);
    }
  }

  lemma PathComplete(s: string)
    requires AllGood(Split(s))
    ensures Matches(PATH, s)
  {
    assert GoodSegment(Split(s)[0]);
    if |Split(s)| == 1 {
      OneSegment(s);
      SegThenMore(s, "");
      assert s + "" == s;
    } else {
      var a, b := SplitAt(s, 1);
      OneSegment(a);
      assert ("/" + b)[1..] == b;
      GoodParts(Split(s), 1, |Split(s)|);
      SegThenMore(a, "/" + b);
      assert s == a + ("/" + b);
    }
  }

  lemma SegThenMore(a: string, more: string)
    requires GoodSegment(a) && (more == "" || (more[0] == '/' && AllGood(Split(more[1..]))))
    ensures Matches(PATH, a + more)
  {
    SegMatches(a);
    MoreMatches(more);
    CatIntro(SEG, MORE, a, more);
  }

  // --- segments around a word --------------------------------------------------------------------------------

  lemma UnderElim(prefix: string, r: Regex, s: string) returns (t: string)
    requires Matches(Under(prefix, r), s)
    ensures s == prefix + "/" + t && Matches(r, t)
  {
    var x;
    x, t := CatElim(Literal(prefix + "/"), r, s);
    LiteralMatches(prefix + "/", x);
  }

  lemma UnderIntro(prefix: string, r: Regex, t: string)
    requires Matches(r, t)
    ensures Matches(Under(prefix, r), prefix + "/" + t)
  {
    LiteralMatches(prefix + "/", prefix + "/");
    CatIntro(Literal(prefix + "/"), r, prefix + "/", t);
  }

  lemma Reassociate(a: string, word: string, b: string)
    ensures a + ("/" + word + "/" + b) == a + "/" + (word + "/" + b)
  {
  }

  lemma ThroughElim(word: string, r: Regex, s: string) returns (a: string, b: string)
    requires Matches(Through(word, r), s)
    ensures s == a + "/" + (word + "/" + b) && Matches(PATH, a) && Matches(r, b)
  {
    var lit := "/" + word + "/";
    var x, y;
    a, y := CatElim(PATH, Cat(Literal(lit), r), s);
    x, b := CatElim(Literal(lit), r, y);
    LiteralMatches(lit, x);
    Reassociate(a, word, b);
  }

  lemma ThroughIntro(word: string, r: Regex, a: string, b: string)
    requires Matches(PATH, a) && Matches(r, b)
    ensures Matches(Through(word, r), a + "/" + (word + "/" + b))
  {
    var lit := "/" + word + "/";
    LiteralMatches(lit, lit);
    CatIntro(Literal(lit), r, lit, b);
    CatIntro(PATH, Cat(Literal(lit), r), a, lit + b);
    Reassociate(a, word, b);
  }

  lemma PrefixSplit(prefix: string, t: string)
    requires NoSlash(prefix)
    ensures Split(prefix + "/" + t) == [prefix] + Split(t)
  {
    SplitNoSlash(prefix);
    SplitConcat(prefix, t);
  }

  lemma AllGoodConcat(a: seq<string>, b: seq<string>)
    ensures AllGood(a + b) <==> AllGood(a) && AllGood(b)
  {
    if AllGood(a + b) {
      assert forall i :: 0 <= i < |a| ==> (a + b)[i] == a[i];
      assert forall i :: 0 <= i < |b| ==> (a + b)[|a| + i] == b[i];
    }
  }

  lemma GoodParts(segs: seq<string>, lo: nat, hi: nat)
    requires AllGood(segs) && lo <= hi <= |segs|
    ensures AllGood(segs[lo..hi])
  {
  }

  /** `prefix/` and then a path, in segments. */
  lemma PrefixedPath(prefix: string, s: string)
    requires GoodSegment(prefix)
    ensures Matches(Under(prefix, PATH), s) <==>
      |Split(s)| >= 2 && Split(s)[0] == prefix && AllGood(Split(s))
  {
    KeyCharsAreNoSlash(prefix);
    if Matches(Under(prefix, PATH), s) {
      var t := UnderElim(prefix, PATH, s);
      PathMatches(t);
      PrefixSplit(prefix, t);
      AllGoodConcat([prefix], Split(t));
    }
    if |Split(s)| >= 2 && Split(s)[0] == prefix && AllGood(Split(s)) {
      var a, t := SplitAt(s, 1);
      OneSegment(a);
      GoodParts(Split(s), 1, |Split(s)|);
      PathMatches(t);
      UnderIntro(prefix, PATH, t);
    }
  }

  /** `prefix/path/word/` and then `r`, in segments. */
  lemma PrefixedMiddle(prefix: string, word: string, r: Regex, s: string) returns (a: string, b: string)
    requires NoSlash(prefix) && NoSlash(word) && Matches(Under(prefix, Through(word, r)), s)
    ensures Split(s) == [prefix] + (Split(a) + ([word] + Split(b)))
    ensures AllGood(Split(a)) && Matches(r, b)
  {
    var t := UnderElim(prefix, Through(word, r), s);
    a, b := ThroughElim(word, r, t);
    PathMatches(a);
    PrefixSplit(prefix, t);
    SplitConcat(a, word + "/" + b);
    PrefixSplit(word, b);
  }

  /** Conversely, a key can be cut around its first segment and around any interior segment. */
  lemma CutAround(s: string, k: nat) returns (a: string, b: string)
    requires 2 <= k <= |Split(s)| - 2
    ensures s == Split(s)[0] + "/" + (a + "/" + (Split(s)[k] + "/" + b))
    ensures Split(a) == Split(s)[1..k] && Split(b) == Split(s)[k + 1..]
  {
    var h, t := SplitAt(s, 1);
    OneSegment(h);
    a, b := CutAt(t, k - 1);
    var segs := Split(s);
    assert segs[1..][..k - 1] == segs[1..k] && segs[1..][k - 1] == segs[k] && segs[1..][k..] == segs[k + 1..];
  }

  /** A key can be cut around any segment but its first and its last. */
  lemma CutAt(t: string, k: nat) returns (a: string, b: string)
    requires 1 <= k <= |Split(t)| - 2
    ensures t == a + "/" + (Split(t)[k] + "/" + b)
    ensures Split(a) == Split(t)[..k] && Split(b) == Split(t)[k + 1..]
  {
    var u, w;
    a, u := SplitAt(t, k);
    w, b := SplitAt(u, 1);
    OneSegment(w);
    var segs := Split(t);
    assert segs[k..][0] == segs[k] && segs[k..][1..] == segs[k + 1..];
  }

  lemma MiddleIntro(s: string, k: nat, r: Regex)
    requires 2 <= k <= |Split(s)| - 2 && AllGood(Split(s)[1..k])
    requires forall b :: Split(b) == Split(s)[k + 1..] ==> Matches(r, b)
    ensures Matches(Under(Split(s)[0], Through(Split(s)[k], r)), s)
  {
    var a, b := CutAround(s, k);
    PathMatches(a);
    ThroughIntro(Split(s)[k], r, a, b);
    UnderIntro(Split(s)[0], Through(Split(s)[k], r), a + "/" + (Split(s)[k] + "/" + b));
  }

  // --- the three languages -----------------------------------------------------------------------------------

  lemma SafeIsGoodNotDots(segs: seq<string>)
    ensures AllSafe(segs) <==> AllGood(segs) && ".." !in segs
  {
  }

  predicate BundleForm(segs: seq<string>) {
    |segs| >= 2 && segs[0] == "bundles"
  }

  /** The bundle validator accepts exactly `bundles` followed by at least one safe segment. */
  lemma BundleKeyLanguage(key: string)
    ensures IsSafeBundleKey(key) <==> BundleForm(Split(key)) && AllSafe(Split(key))
  {
    PrefixedPath("bundles", key);
    SafeIsGoodNotDots(Split(key));
  }

  predicate HasInterior(segs: seq<string>, word: string) {
    exists k :: 2 <= k <= |segs| - 2 && segs[k] == word
  }

  predicate LoraForm(segs: seq<string>) {
    || (|segs| >= 2 && segs[0] == "loras")
    || (|segs| >= 1 && segs[0] == "bundles" && HasInterior(segs, "loras"))
  }

  /** `prefix/path/word/path`, in segments. */
  lemma PathThroughWord(prefix: string, word: string, s: string)
    requires GoodSegment(prefix) && GoodSegment(word)
    ensures Matches(Under(prefix, Through(word, PATH)), s) <==>
      Split(s)[0] == prefix && HasInterior(Split(s), word) && AllGood(Split(s))
  {
    KeyCharsAreNoSlash(prefix);
    KeyCharsAreNoSlash(word);
    if Matches(Under(prefix, Through(word, PATH)), s) {
      var a, b := PrefixedMiddle(prefix, word, PATH, s);
      PathMatches(b);
      InteriorParts(prefix, Split(a), word, Split(b));
    }
    if Split(s)[0] == prefix && HasInterior(Split(s), word) && AllGood(Split(s)) {
      var k :| 2 <= k <= |Split(s)| - 2 && Split(s)[k] == word;
      GoodParts(Split(s), 1, k);
      GoodParts(Split(s), k + 1, |Split(s)|);
      forall b | Split(b) == Split(s)[k + 1..]
        ensures Matches(PATH, b)
      {
        PathMatches(b);
      }
      MiddleIntro(s, k, PATH);
    }
  }

  lemma InteriorParts(prefix: string, a: seq<string>, word: string, b: seq<string>)
    requires GoodSegment(prefix) && GoodSegment(word) && AllGood(a) && AllGood(b) && a != [] && b != []
    ensures var segs := [prefix] + (a + ([word] + b));
      AllGood(segs) && HasInterior(segs, word)
  {
    var segs := [prefix] + (a + ([word] + b));
    AllGoodConcat([word], b);
    AllGoodConcat(a, [word] + b);
    AllGoodConcat([prefix], a + ([word] + b));
    assert segs[|a| + 1] == word;
  }

  /** The LoRA validator accepts exactly `loras` followed by at least one safe segment, or `bundles` with
      an interior `loras` that has a safe segment on each side. */
  lemma LoraKeyLanguage(key: string)
    ensures IsSafeLoraKey(key) <==> LoraForm(Split(key)) && AllSafe(Split(key))
  {
    PrefixedPath("loras", key);
    PathThroughWord("bundles", "loras", key);
    SafeIsGoodNotDots(Split(key));
  }

  predicate PngName(s: string) {
    |s| > 4 && s[|s| - 4..] == ".png"
  }

  lemma SegThenLiteral(t: string, s: string)
    requires GoodSegment(t)
    ensures Matches(Cat(SEG, Literal(t)), s) <==> |s| > |t| && s[|s| - |t|..] == t && GoodSegment(s)
  {
    if Matches(Cat(SEG, Literal(t)), s) {
      var x, y := CatElim(SEG, Literal(t), s);
      SegMatches(x);
      LiteralMatches(t, y);
      GoodConcat(x, t);
      assert s[|s| - |t|..] == t;
    }
    if |s| > |t| && s[|s| - |t|..] == t && GoodSegment(s) {
      var x := s[..|s| - |t|];
      assert s == x + t;
      GoodConcat(x, t);
      SegMatches(x);
      LiteralMatches(t, t);
      CatIntro(SEG, Literal(t), x, t);
    }
  }

  lemma GoodConcat(x: string, t: string)
    requires GoodSegment(t) && x != ""
    ensures GoodSegment(x + t) <==> GoodSegment(x)
  {
    if GoodSegment(x + t) {
      assert forall i :: 0 <= i < |x| ==> x[i] == (x + t)[i];
    }
  }

  lemma PngMatches(s: string)
    ensures Matches(PNG, s) <==> PngName(s) && GoodSegment(s)
  {
    SegThenLiteral(".png", s);
  }

  predicate NameForm(segs: seq<string>, prefix: string, word: string) {
    |segs| >= 4 && segs[0] == prefix && segs[|segs| - 2] == word && PngName(segs[|segs| - 1])
  }

  lemma NameSound(prefix: string, word: string, s: string)
    requires GoodSegment(prefix) && GoodSegment(word) && Matches(Under(prefix, Through(word, PNG)), s)
    ensures NameForm(Split(s), prefix, word) && AllGood(Split(s))
  {
    KeyCharsAreNoSlash(prefix);
    KeyCharsAreNoSlash(word);
    var a, b := PrefixedMiddle(prefix, word, PNG, s);
    PngMatches(b);
    KeyCharsAreNoSlash(b);
    SplitNoSlash(b);
    InteriorParts(prefix, Split(a), word, [b]);
  }

  lemma NameComplete(prefix: string, word: string, s: string)
    requires NameForm(Split(s), prefix, word) && AllGood(Split(s))
    ensures Matches(Under(prefix, Through(word, PNG)), s)
  {
    var n := |Split(s)|;
    GoodParts(Split(s), 1, n - 2);
    forall b | Split(b) == Split(s)[n - 1..]
      ensures Matches(PNG, b)
    {
      OneSegment(b);
      assert b == Split(s)[n - 1];
      PngMatches(b);
    }
    MiddleIntro(s, n - 2, PNG);
  }

  /** The keyframe validator accepts exactly `renders`, at least one safe segment, `keyframes`, and a
      safe `.png` name. */
  lemma KeyframeKeyLanguage(key: string)
    ensures IsSafeKeyframeKey(key) <==> NameForm(Split(key), "renders", "keyframes") && AllSafe(Split(key))
  {
    if Matches(KEYFRAME_KEY, key) {
      NameSound("renders", "keyframes", key);
    }
    if NameForm(Split(key), "renders", "keyframes") && AllGood(Split(key)) {
      NameComplete("renders", "keyframes", key);
    }
    SafeIsGoodNotDots(Split(key));
  }
}
