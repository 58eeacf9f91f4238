/** `_safe` and the key builders of core/contract.py. */
module Slugs {
  import opened Regex
  import opened Paths
  import opened KeyGrammar

  /** `str.isspace`, as `strip` and `split` use it. */
  predicate IsSpace(c: char) {
    || '\U{9}' <= c <= '\U{D}' || '\U{1C}' <= c <= '\U{20}' || c == '\U{85}' || c == '\U{A0}' || c == '\U{1680}'
    || '\U{2000}' <= c <= '\U{200A}' || c == '\U{2028}' || c == '\U{2029}' || c == '\U{202F}'
    || c == '\U{205F}' || c == '\U{3000}'
  }

  /** These are the characters that count as white space in Python. */
  lemma WhiteSpace(c: char)
    ensures var spaces :=
      " \t\n\r\U{B}\U{C}\U{1C}\U{1D}\U{1E}\U{1F}\U{85}\U{A0}\U{1680}\U{2000}\U{2001}\U{2002}\U{2003}\U{2004}" +
      "\U{2005}\U{2006}\U{2007}\U{2008}\U{2009}\U{200A}\U{2028}\U{2029}\U{202F}\U{205F}\U{3000}";
      IsSpace(c) <==> c in spaces
  {
  }

  predicate AllSpace(s: string) {
    forall i :: 0 <= i < |s| ==> IsSpace(s[i])
  }

  predicate NoSpace(s: string) {
    forall i :: 0 <= i < |s| ==> !IsSpace(s[i])
  }

  /** `str.strip()` */
  function Strip(s: string): string {
    if s == "" then ""
    else if IsSpace(s[0]) then Strip(s[1..])
    else if IsSpace(s[|s| - 1]) then Strip(s[..|s| - 1])
    else s
  }

  /** What is left between white space at both ends, if it has none there itself. */
  lemma {:induction false} StripIsInner(v: string, s: string, w: string)
    requires AllSpace(v) && AllSpace(w) && (s == "" || (!IsSpace(s[0]) && !IsSpace(s[|s| - 1])))
    ensures Strip(v + s + w) == s
    decreases |v| + |w|
  {
    var t := v + s + w;
    if v != "" {
      assert t[1..] == v[1..] + s + w;
      StripIsInner(v[1..], s, w);
    } else if w != "" && s == "" {
      assert t[1..] == v + s + w[1..];
      StripIsInner(v, s, w[1..]);
    } else if w != "" {
      assert t[..|t| - 1] == v + s + w[..|w| - 1];
      StripIsInner(v, s, w[..|w| - 1]);
    } else {
      assert t == s;
    }
  }

  /** The length of the longest space-free prefix. */
  function WordLength(s: string): (n: nat)
    ensures n <= |s| && NoSpace(s[..n]) && (n < |s| ==> IsSpace(s[n]))
  {
    if s == "" || IsSpace(s[0]) then 0 else 1 + WordLength(s[1..])
  }

  /** `str.split()` */
  function Words(s: string): seq<string>
    decreases |s|
  {
    if s == "" then []
    else if IsSpace(s[0]) then Words(s[1..])
    else [s[..WordLength(s)]] + Words(s[WordLength(s)..])
  }

  /** `"_".join(words)` */
  function Underscored(words: seq<string>): string {
    if words == [] then ""
    else if |words| == 1 then words[0]
    else words[0] + "_" + Underscored(words[1..])
  }

  /** `s.replace("/", "_")` */
  function Flattened(s: string): (t: string)
    ensures |t| == |s| && forall i :: 0 <= i < |s| ==> t[i] == if s[i] == '/' then '_' else s[i]
  {
    if s == "" then "" else [if s[0] == '/' then '_' else s[0]] + Flattened(s[1..])
  }

  /** `_safe` */
  function Slug(s: string): string {
    var t := Flattened(Underscored(Words(Strip(s))));
    if t == "" then "untitled" else t
  }

  /** What a slug looks like. */
  predicate IsSlug(t: string) {
    t != "" && NoSpace(t) && NoSlash(t)
  }

  ghost predicate AreWords(words: seq<string>) {
    forall i :: 0 <= i < |words| ==> words[i] != "" && NoSpace(words[i])
  }

  lemma {:induction false} WordsAreWords(s: string)
    ensures AreWords(Words(s))
    decreases |s|
  {
    if s != "" {
      if IsSpace(s[0]) {
        WordsAreWords(s[1..]);
      } else {
        WordsAreWords(s[WordLength(s)..]);
      }
    }
  }

  lemma {:induction false} UnderscoredHasNoSpace(words: seq<string>)
    requires AreWords(words)
    ensures NoSpace(Underscored(words))
  {
    if |words| > 1 {
      assert AreWords(words[1..]);
      UnderscoredHasNoSpace(words[1..]);
    }
  }

  /** Every slug is non-empty and holds no white space and no slash. */
  lemma SlugIsSlug(s: string)
    ensures IsSlug(Slug(s))
  {
    WordsAreWords(Strip(s));
    UnderscoredHasNoSpace(Words(Strip(s)));
  }

  lemma OneWord(t: string)
    requires t != "" && NoSpace(t)
    ensures Words(t) == [t] && Strip(t) == t
  {
    assert WordLength(t) == |t|;
    assert t[..|t|] == t && t[|t|..] == "";
  }

  /** The slugs are exactly the fixed points, so `_safe` is an idempotent retraction onto them. */
  lemma SlugFixedPoints(t: string)
    ensures Slug(t) == t <==> IsSlug(t)
  {
    SlugIsSlug(t);
    if IsSlug(t) {
      OneWord(t);
      assert Flattened(t) == t;
    }
  }

  lemma SlugIsIdempotent(s: string)
    ensures Slug(Slug(s)) == Slug(s)
  {
    SlugIsSlug(s);
    SlugFixedPoints(Slug(s));
  }

  // --- one project, one spelling ------------------------------------------------------------------

  lemma {:induction false} LeadingSpace(w: string, s: string)
    requires AllSpace(w)
    ensures Words(w + s) == Words(s)
  {
    if w == "" {
      assert w + s == s;
    } else {
      assert (w + s)[1..] == w[1..] + s;
      LeadingSpace(w[1..], s);
    }
  }

  lemma {:induction false} WordStops(a: string, rest: string)
    requires NoSpace(a) && (rest == "" || IsSpace(rest[0]))
    ensures WordLength(a + rest) == |a|
  {
    if a == "" {
      assert a + rest == rest;
    } else {
      assert (a + rest)[1..] == a[1..] + rest;
      WordStops(a[1..], rest);
    }
  }

  lemma FirstWord(x: string, rest: string)
    requires x != "" && NoSpace(x) && (rest == "" || IsSpace(rest[0]))
    ensures Words(x + rest) == [x] + Words(rest)
  {
    WordStops(x, rest);
    assert (x + rest)[..|x|] == x && (x + rest)[|x|..] == rest;
  }

  lemma Reassociate3(x: string, y: string, w: string, b: string)
    ensures (x + y) + w + b == x + (y + w + b)
  {
  }

  /** A run of white space separates the words on its two sides, and is otherwise forgotten. */
  lemma {:induction false} SpaceSeparates(a: string, w: string, b: string)
    requires AllSpace(w) && w != ""
    ensures Words(a + w + b) == Words(a) + Words(b)
    decreases |a|
  {
    if a == "" {
      assert a + w + b == w + b;
      LeadingSpace(w, b);
    } else if IsSpace(a[0]) {
      assert (a + w + b)[1..] == a[1..] + w + b;
      SpaceSeparates(a[1..], w, b);
    } else {
      var n := WordLength(a);
      SpaceSeparates(a[n..], w, b);
      SpaceInFront(a[n..], w, b);
      WordInFront(a[..n], a[n..], a[n..] + w + b, Words(b));
      Reassociate3(a[..n], a[n..], w, b);
      assert a == a[..n] + a[n..];
    }
  }

  predicate StartsWithSpace(s: string) {
    s == "" || IsSpace(s[0])
  }

  lemma SpaceInFront(rest: string, w: string, b: string)
    requires StartsWithSpace(rest) && AllSpace(w) && w != ""
    ensures StartsWithSpace(rest + w + b)
  {
    assert (rest + w + b)[0] == if rest == "" then w[0] else rest[0];
  }

  /** A word in front adds itself to the words. */
  lemma WordInFront(x: string, rest: string, t: string, more: seq<string>)
    requires x != "" && NoSpace(x) && StartsWithSpace(rest) && StartsWithSpace(t)
    requires Words(t) == Words(rest) + more
    ensures Words(x + t) == Words(x + rest) + more
  {
    FirstWord(x, rest);
    FirstWord(x, t);
    ConsAssociates(x, Words(rest), more);
  }

  lemma ConsAssociates<T>(x: T, a: seq<T>, b: seq<T>)
    ensures [x] + (a + b) == [x] + a + b
  {
  }

  /** `strip` adds nothing to `split`. */
  lemma {:induction false} StripIsRedundant(s: string)
    ensures Words(Strip(s)) == Words(s)
    decreases |s|
  {
    if s != "" {
      if IsSpace(s[0]) {
        StripIsRedundant(s[1..]);
      } else if IsSpace(s[|s| - 1]) {
        StripIsRedundant(s[..|s| - 1]);
        assert s == s[..|s| - 1] + [s[|s| - 1]] + "";
        SpaceSeparates(s[..|s| - 1], [s[|s| - 1]], "");
      }
    }
  }

  /** Spellings of a name that differ in the length or kind of their inner white space have the same
      slug. */
  lemma SpellingsAgree(a: string, w: string, w': string, b: string)
    requires AllSpace(w) && w != "" && AllSpace(w') && w' != ""
    ensures Slug(a + w + b) == Slug(a + w' + b)
  {
    StripIsRedundant(a + w + b);
    StripIsRedundant(a + w' + b);
    SpaceSeparates(a, w, b);
    SpaceSeparates(a, w', b);
  }

  /** White space around a name is forgotten. */
  lemma OuterSpaceIsForgotten(w: string, a: string, w': string)
    requires AllSpace(w) && AllSpace(w')
    ensures Slug(w + a + w') == Slug(a)
  {
    StripIsRedundant(a);
    StripIsRedundant(w + a + w');
    LeadingSpace(w, a);
    if w' != "" {
      SpaceSeparates(w + a, w', "");
      assert w + a + w' + "" == w + a + w';
      assert Words(w + a) + Words("") == Words(a);
    } else {
      assert w + a + w' == w + a;
    }
  }

  // --- what the slug of a name is --------------------------------------------------------------------

  lemma {:induction false} BlankHasNoWords(s: string)
    ensures Words(s) == [] <==> AllSpace(s)
  {
    if s != "" {
      if IsSpace(s[0]) {
        BlankHasNoWords(s[1..]);
        assert forall i :: 0 < i < |s| ==> s[i] == s[1..][i - 1];
      }
    }
  }

  lemma FlattenedConcat(a: string, b: string)
    ensures Flattened(a + b) == Flattened(a) + Flattened(b)
  {
    var l, r := Flattened(a + b), Flattened(a) + Flattened(b);
    assert |l| == |r|;
    assert forall i :: 0 <= i < |l| ==> l[i] == r[i];
  }

  lemma {:induction false} UnderscoredConcat(xs: seq<string>, ys: seq<string>)
    requires xs != [] && ys != []
    ensures Underscored(xs + ys) == Underscored(xs) + "_" + Underscored(ys)
  {
    assert (xs + ys)[1..] == xs[1..] + ys;
    if |xs| == 1 {
      assert xs[1..] + ys == ys;
    } else {
      UnderscoredConcat(xs[1..], ys);
      Reassociate5(xs[0], "_", Underscored(xs[1..]), "_", Underscored(ys));
    }
  }

  lemma Reassociate5(a: string, b: string, c: string, d: string, e: string)
    ensures a + b + (c + d + e) == a + b + c + d + e
  {
  }

  lemma SlugOfWords(s: string)
    ensures Slug(s) == if AllSpace(s) then "untitled" else Flattened(Underscored(Words(s)))
  {
    StripIsRedundant(s);
    BlankHasNoWords(s);
    WordsAreWords(s);
    if !AllSpace(s) {
      assert Words(s)[0] != "";
    }
  }

  /** A name of two parts with white space between them has the two slugs with one underscore between them. */
  lemma SlugOfTwo(a: string, w: string, b: string)
    requires AllSpace(w) && w != "" && !AllSpace(a) && !AllSpace(b)
    ensures Slug(a + w + b) == Slug(a) + "_" + Slug(b)
  {
    SlugOfWords(a);
    SlugOfWords(b);
    SpaceSeparates(a, w, b);
    BlankHasNoWords(a);
    BlankHasNoWords(b);
    BlankHasNoWords(a + w + b);
    SlugOfWords(a + w + b);
    var x, y := Underscored(Words(a)), Underscored(Words(b));
    UnderscoredConcat(Words(a), Words(b));
    FlattenedConcat(x + "_", y);
    FlattenedConcat(x, "_");
    assert Flattened("_") == "_";
  }

  /** A name without white space keeps every character but the slashes, which become underscores; a blank name is
      untitled. Together with `SlugOfTwo` and `OuterSpaceIsForgotten` this says what every slug is. */
  lemma SlugOfOne(a: string)
    ensures a != "" && NoSpace(a) ==>
      |Slug(a)| == |a| && forall i :: 0 <= i < |a| ==> Slug(a)[i] == if a[i] == '/' then '_' else a[i]
    ensures AllSpace(a) ==> Slug(a) == "untitled"
  {
    if a != "" && NoSpace(a) {
      OneWord(a);
    } else {
      SlugOfWords(a);
    }
  }

  predicate Plain(s: string) {
    forall i :: 0 <= i < |s| ==> s[i] != '_' && s[i] != '/'
  }

  lemma FirstUnderscore(x: string, r: string, y: string, t: string)
    requires Plain(x) && Plain(y) && x + "_" + r == y + "_" + t
    ensures x == y && r == t
  {
    var s := x + "_" + r;
    assert s[|x|] == '_' && s[|y|] == '_';
    assert forall i :: 0 <= i < |x| ==> s[i] == x[i];
    assert forall i :: 0 <= i < |y| ==> s[i] == y[i];
    assert |x| == |y|;
    assert s[..|x|] == x && s[..|y|] == y && s[|x| + 1..] == r && s[|y| + 1..] == t;
  }

  ghost predicate PlainWords(words: seq<string>) {
    forall i :: 0 <= i < |words| ==> words[i] != "" && Plain(words[i])
  }

  lemma {:induction false} UnderscoredIsInjective(xs: seq<string>, ys: seq<string>)
    requires PlainWords(xs) && PlainWords(ys) && Underscored(xs) == Underscored(ys)
    ensures xs == ys
    decreases |xs|
  {
    if |xs| > 1 {
      SeveralWordsAreNotPlain(xs);
    }
    if |ys| > 1 {
      SeveralWordsAreNotPlain(ys);
    }
    if |xs| > 1 && |ys| > 1 {
      FirstUnderscore(xs[0], Underscored(xs[1..]), ys[0], Underscored(ys[1..]));
      UnderscoredIsInjective(xs[1..], ys[1..]);
      assert xs == [xs[0]] + xs[1..] && ys == [ys[0]] + ys[1..];
    }
  }

  lemma SeveralWordsAreNotPlain(words: seq<string>)
    requires |words| > 1
    ensures !Plain(Underscored(words))
  {
    assert Underscored(words)[|words[0]|] == '_';
  }

  lemma {:induction false} WordsArePlain(s: string)
    requires Plain(s)
    ensures PlainWords(Words(s))
    decreases |s|
  {
    if s != "" {
      if IsSpace(s[0]) {
        WordsArePlain(s[1..]);
      } else {
        WordsArePlain(s[WordLength(s)..]);
      }
    }
  }

  lemma {:induction false} UnderscoredIsFlat(words: seq<string>)
    requires PlainWords(words)
    ensures Flattened(Underscored(words)) == Underscored(words)
  {
    if |words| > 1 {
      UnderscoredIsFlat(words[1..]);
      FlattenedConcat(words[0] + "_", Underscored(words[1..]));
      FlattenedConcat(words[0], "_");
    }
    if |words| >= 1 {
      assert Flattened(words[0]) == words[0];
    }
  }

  /** Two names without slashes and underscores share a slug exactly when they are the same words. */
  lemma SameSlugSameWords(a: string, b: string)
    requires Plain(a) && Plain(b) && !AllSpace(a) && !AllSpace(b)
    ensures Slug(a) == Slug(b) <==> Words(a) == Words(b)
  {
    SlugOfWords(a);
    SlugOfWords(b);
    WordsArePlain(a);
    WordsArePlain(b);
    UnderscoredIsFlat(Words(a));
    UnderscoredIsFlat(Words(b));
    if Slug(a) == Slug(b) {
      UnderscoredIsInjective(Words(a), Words(b));
    }
  }

  // --- the builders -------------------------------------------------------------------------------

  /** `a/b/c/d` */
  function FourParts(a: string, b: string, c: string, d: string): string {
    a + "/" + b + "/" + c + "/" + d
  }

  const ADAPTER := "pytorch_lora_weights.safetensors"

  /** `renders/<project>/keyframes/<shot>.png` */
  function KeyframeKeyFor(project: string, shot: string): string {
    FourParts("renders", Slug(project), "keyframes", Slug(shot) + ".png")
  }

  /** `renders/<project>/clips/<shot>_i2v.mp4` */
  function ClipKeyFor(project: string, shot: string): string {
    FourParts("renders", Slug(project), "clips", Slug(shot) + "_i2v.mp4")
  }

  /** `loras/<project>/<slot>/pytorch_lora_weights.safetensors` */
  function LoraKeyFor(project: string, slot: string): string {
    FourParts("loras", Slug(project), Slug(slot), ADAPTER)
  }

  lemma FourSegments(a: string, b: string, c: string, d: string)
    requires NoSlash(a) && NoSlash(b) && NoSlash(c) && NoSlash(d)
    ensures Split(FourParts(a, b, c, d)) == [a, b, c, d]
  {
    SplitConcat(a + "/" + b + "/" + c, d);
    SplitConcat(a + "/" + b, c);
    SplitConcat(a, b);
    SplitNoSlash(a);
    SplitNoSlash(b);
    SplitNoSlash(c);
    SplitNoSlash(d);
  }

  lemma KeyframeSegments(project: string, shot: string)
    ensures Split(KeyframeKeyFor(project, shot)) == ["renders", Slug(project), "keyframes", Slug(shot) + ".png"]
  {
    SlugIsSlug(project);
    SlugIsSlug(shot);
    FourSegments("renders", Slug(project), "keyframes", Slug(shot) + ".png");
  }

  lemma ClipSegments(project: string, shot: string)
    ensures Split(ClipKeyFor(project, shot)) == ["renders", Slug(project), "clips", Slug(shot) + "_i2v.mp4"]
  {
    SlugIsSlug(project);
    SlugIsSlug(shot);
    FourSegments("renders", Slug(project), "clips", Slug(shot) + "_i2v.mp4");
  }

  lemma LoraSegments(project: string, slot: string)
    ensures Split(LoraKeyFor(project, slot)) ==
      ["loras", Slug(project), Slug(slot), "pytorch_lora_weights.safetensors"]
  {
    SlugIsSlug(project);
    SlugIsSlug(slot);
    FourSegments("loras", Slug(project), Slug(slot), ADAPTER);
  }

  lemma SuffixCancels(a: string, b: string, suffix: string)
    requires a + suffix == b + suffix
    ensures a == b
  {
    assert |a| == |b|;
    assert forall i :: 0 <= i < |a| ==> a[i] == (a + suffix)[i];
    assert forall i :: 0 <= i < |b| ==> b[i] == (b + suffix)[i];
  }

  /** Each builder tells names apart exactly as far as their slugs do. */
  lemma BuildersAreInjectiveUpToSlugs(p: string, x: string, p': string, x': string)
    ensures KeyframeKeyFor(p, x) == KeyframeKeyFor(p', x') <==> Slug(p) == Slug(p') && Slug(x) == Slug(x')
    ensures ClipKeyFor(p, x) == ClipKeyFor(p', x') <==> Slug(p) == Slug(p') && Slug(x) == Slug(x')
    ensures LoraKeyFor(p, x) == LoraKeyFor(p', x') <==> Slug(p) == Slug(p') && Slug(x) == Slug(x')
  {
    if KeyframeKeyFor(p, x) == KeyframeKeyFor(p', x') {
      KeyframeSegments(p, x);
      KeyframeSegments(p', x');
      SuffixCancels(Slug(x), Slug(x'), ".png");
    }
    if ClipKeyFor(p, x) == ClipKeyFor(p', x') {
      ClipSegments(p, x);
      ClipSegments(p', x');
      SuffixCancels(Slug(x), Slug(x'), "_i2v.mp4");
    }
    if LoraKeyFor(p, x) == LoraKeyFor(p', x') {
      LoraSegments(p, x);
      LoraSegments(p', x');
    }
  }

  /** A keyframe, a clip and an adapter never share a key. */
  lemma KeySpacesAreDisjoint(p: string, x: string, p': string, x': string)
    ensures KeyframeKeyFor(p, x) != ClipKeyFor(p', x')
    ensures KeyframeKeyFor(p, x) != LoraKeyFor(p', x')
    ensures ClipKeyFor(p, x) != LoraKeyFor(p', x')
  {
    KeyframeSegments(p, x);
    ClipSegments(p', x');
    ClipSegments(p, x);
    LoraSegments(p', x');
    assert "renders"[0] != "loras"[0] && "keyframes"[0] != "clips"[0];
  }

  /** `keyframe_key_matches_project` */
  ghost predicate MatchesProject(key: string, project: string) {
    IsSafeKeyframeKey(key) && ThreeParts("renders", Slug(project), "keyframes") + "/" <= key
  }

  function ThreeParts(a: string, b: string, c: string): string {
    a + "/" + b + "/" + c
  }

  lemma ThreeSegments(a: string, b: string, c: string)
    requires NoSlash(a) && NoSlash(b) && NoSlash(c)
    ensures Split(ThreeParts(a, b, c)) == [a, b, c]
  {
    SplitConcat(a + "/" + b, c);
    SplitConcat(a, b);
    SplitNoSlash(a);
    SplitNoSlash(b);
    SplitNoSlash(c);
  }

  /** A key starts with `a/b/c/` exactly when its first segments are `a`, `b`, `c` and more follow. */
  lemma StartsWithIff(key: string, a: string, b: string, c: string)
    requires NoSlash(a) && NoSlash(b) && NoSlash(c)
    ensures ThreeParts(a, b, c) + "/" <= key <==> |Split(key)| > 3 && Split(key)[..3] == [a, b, c]
  {
    var h := ThreeParts(a, b, c);
    ThreeSegments(a, b, c);
    if h + "/" <= key {
      var rest := key[|h| + 1..];
      assert key == h + "/" + rest;
      SplitConcat(h, rest);
    }
    if |Split(key)| > 3 && Split(key)[..3] == [a, b, c] {
      var g, rest := SplitAt(key, 3);
      SplitInjective(g, h);
    }
  }

  /** An accepted keyframe key belongs to a project exactly when its second segment is the project's
      slug and its third is `keyframes`. */
  lemma MatchesProjectIff(key: string, project: string)
    ensures MatchesProject(key, project) <==>
      IsSafeKeyframeKey(key) && |Split(key)| > 3 && Split(key)[..3] == ["renders", Slug(project), "keyframes"]
  {
    SlugIsSlug(project);
    StartsWithIff(key, "renders", Slug(project), "keyframes");
  }

  /** No keyframe key is accepted for two projects with different slugs. */
  lemma OneProjectPerKey(key: string, p: string, p': string)
    requires MatchesProject(key, p) && MatchesProject(key, p')
    ensures Slug(p) == Slug(p')
  {
    MatchesProjectIff(key, p);
    MatchesProjectIff(key, p');
    assert Split(key)[..3][1] == Slug(p);
  }

  // --- builders against validators ----------------------------------------------------------------

  lemma FourAreSafe(a: string, b: string, c: string, d: string)
    ensures AllSafe([a, b, c, d]) <==> SafeSegment(a) && SafeSegment(b) && SafeSegment(c) && SafeSegment(d)
  {
    var segs := [a, b, c, d];
    assert segs[0] == a && segs[1] == b && segs[2] == c && segs[3] == d;
  }

  lemma PngOfSlug(name: string)
    requires name != ""
    ensures PngName(name + ".png") && (SafeSegment(name + ".png") <==> AllIn(name, KeyChar))
  {
    var png := name + ".png";
    assert forall i :: 0 <= i < |name| ==> png[i] == name[i];
    assert forall i :: |name| <= i < |png| ==> png[i] == ".png"[i - |name|];
  }

  /** A built keyframe key passes the door's own validator, and for its own project, exactly when both
      slugs use only the allowed characters and the project's is not `..`. */
  lemma BuiltKeyframeKeyIsSafeIff(p: string, x: string)
    ensures MatchesProject(KeyframeKeyFor(p, x), p) <==>
      AllIn(Slug(p), KeyChar) && AllIn(Slug(x), KeyChar) && Slug(p) != ".."
    ensures IsSafeKeyframeKey(KeyframeKeyFor(p, x)) <==> MatchesProject(KeyframeKeyFor(p, x), p)
  {
    KeyframeSegments(p, x);
    MatchesProjectIff(KeyframeKeyFor(p, x), p);
    BuiltKeyframeKeyIsAccepted(p, x);
  }

  lemma BuiltKeyframeKeyIsAccepted(p: string, x: string)
    ensures IsSafeKeyframeKey(KeyframeKeyFor(p, x)) <==>
      AllIn(Slug(p), KeyChar) && AllIn(Slug(x), KeyChar) && Slug(p) != ".."
  {
    SlugIsSlug(p);
    SlugIsSlug(x);
    KeyframeSegments(p, x);
    KeyframeKeyLanguage(KeyframeKeyFor(p, x));
    FixedWordsAreSafe();
    NameOfFour("renders", Slug(p), "keyframes", Slug(x));
  }

  lemma FixedWordsAreSafe()
    ensures SafeSegment("renders") && SafeSegment("keyframes")
  {
  }

  lemma NameOfFour(prefix: string, a: string, word: string, name: string)
    requires SafeSegment(prefix) && SafeSegment(word) && a != "" && name != ""
    ensures NameForm([prefix, a, word, name + ".png"], prefix, word)
    ensures AllSafe([prefix, a, word, name + ".png"]) <==> AllIn(a, KeyChar) && AllIn(name, KeyChar) && a != ".."
  {
    PngOfSlug(name);
    FourAreSafe(prefix, a, word, name + ".png");
  }

  lemma LoraOfFour(prefix: string, a: string, b: string, c: string)
    requires prefix == "loras" && SafeSegment(c) && a != "" && b != ""
    ensures LoraForm([prefix, a, b, c])
    ensures AllSafe([prefix, a, b, c]) <==>
      AllIn(a, KeyChar) && AllIn(b, KeyChar) && a != ".." && b != ".."
  {
    FourAreSafe(prefix, a, b, c);
  }

  lemma AdapterIsSafe()
    ensures SafeSegment(ADAPTER)
  {
  }

  /** A built adapter key passes exactly when both slugs use only the allowed characters and neither
      is `..`. */
  lemma BuiltLoraKeyIsSafeIff(p: string, slot: string)
    ensures IsSafeLoraKey(LoraKeyFor(p, slot)) <==>
      AllIn(Slug(p), KeyChar) && AllIn(Slug(slot), KeyChar) && Slug(p) != ".." && Slug(slot) != ".."
  {
    SlugIsSlug(p);
    SlugIsSlug(slot);
    AdapterIsSafe();
    LoraSegments(p, slot);
    LoraKeyLanguage(LoraKeyFor(p, slot));
    LoraOfFour("loras", Slug(p), Slug(slot), ADAPTER);
  }

  lemma OddNameIsUnsafe(p: string, i: nat, x: string)
    requires IsSlug(p) && i < |p| && !InClass(p[i], KeyChar)
    ensures !IsSafeKeyframeKey(KeyframeKeyFor(p, x)) && !IsSafeLoraKey(LoraKeyFor(p, x))
  {
    SlugFixedPoints(p);
    BuiltKeyframeKeyIsSafeIff(p, x);
    BuiltLoraKeyIsSafeIff(p, x);
  }

  /** The door can build keys that it would itself refuse, keyframe and adapter keys alike: any name with
      a character outside the pattern, such as an accented letter. */
  lemma BuiltKeyCanBeUnsafe(x: string)
    ensures !IsSafeKeyframeKey(KeyframeKeyFor("Caf\U{E9}", x)) && !IsSafeLoraKey(LoraKeyFor("Caf\U{E9}", x))
  {
    var p := "Caf\U{E9}";
    assert NoSpace(p) && NoSlash(p) && p[3] == '\U{E9}';
    OddNameIsUnsafe(p, 3, x);
  }
}
