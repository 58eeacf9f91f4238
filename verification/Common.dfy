/** Datatypes and sequence facts shared by the models. */
module Common {

  datatype Option<+T> = None | Some(value: T)

  /** The quality tiers of an i2v request. */
  datatype Tier = Draft | Standard | Final

  /** A decoded JSON value. The text encoding itself is not part of this model. */
  datatype Json =
    | Null
    | Bool(b: bool)
    | Num(n: int)
    | Str(s: string)
    | Arr(items: seq<Json>)
    | Obj(fields: map<string, Json>)

  /** `v if isinstance(v, dict) else {}` */
  function AsDict(v: Json): Json {
    if v.Obj? then v else Obj(map[])
  }

  /** `s[:n]` */
  function Take<T>(s: seq<T>, n: nat): (t: seq<T>)
    ensures t <= s && |t| == if |s| < n then |s| else n
  {
    if |s| <= n then s else s[..n]
  }

  /** `text` is the first 500 characters of `message`, or all of it. */
  predicate IsCut(text: string, message: string) {
    text <= message && |text| == if |message| < 500 then |message| else 500
  }

  /** The last `min(|s|, n)` elements of `s`. */
  function Last<T>(s: seq<T>, n: nat): seq<T> {
    if |s| <= n then s else s[|s| - n..]
  }

  /** What `Last` leaves behind. */
  function Older<T>(s: seq<T>, n: nat): seq<T> {
    if |s| <= n then [] else s[..|s| - n]
  }

  ghost predicate NoDup<T(!new)>(s: seq<T>) {
    forall i, j :: 0 <= i < j < |s| ==> s[i] != s[j]
  }

  /** `s` with every element of `d` deleted, in order. */
  function Without<T(==)>(s: seq<T>, d: set<T>): seq<T> {
    if s == [] then []
    else if s[|s| - 1] in d then Without(s[..|s| - 1], d)
    else Without(s[..|s| - 1], d) + [s[|s| - 1]]
  }

  lemma WithoutAppend<T>(s: seq<T>, x: T, d: set<T>)
    ensures Without(s + [x], d) == if x in d then Without(s, d) else Without(s, d) + [x]
  {
    assert (s + [x])[..|s|] == s;
  }

  lemma {:induction false} WithoutMember<T>(s: seq<T>, d: set<T>, x: T)
    ensures x in Without(s, d) <==> x in s && x !in d
  {
    if s != [] {
      WithoutMember(s[..|s| - 1], d, x);
      assert s == s[..|s| - 1] + [s[|s| - 1]];
    }
  }

  lemma {:induction false} WithoutNoDup<T(!new)>(s: seq<T>, d: set<T>)
    requires NoDup(s)
    ensures NoDup(Without(s, d))
  {
    if s != [] {
      var front := s[..|s| - 1];
      WithoutNoDup(front, d);
      WithoutMember(front, d, s[|s| - 1]);
    }
  }

  /** Deleting one more element of a duplicate-free sequence removes its single occurrence. */
  lemma {:induction false} WithoutOneMore<T(!new)>(s: seq<T>, d: set<T>, x: T)
    requires NoDup(s)
    ensures Without(s, d + {x}) == Without(Without(s, d), {x})
  {
    if s != [] {
      var front, y := s[..|s| - 1], s[|s| - 1];
      WithoutOneMore(front, d, x);
      if y !in d {
        WithoutAppend(Without(front, d), y, {x});
      }
    }
  }

  lemma {:induction false} WithoutAbsent<T(!new)>(s: seq<T>, x: T)
    requires x !in s
    ensures Without(s, {x}) == s
  {
    if s != [] {
      var front, y := s[..|s| - 1], s[|s| - 1];
      assert s == front + [y];
      WithoutAbsent(front, x);
      WithoutAppend(front, y, {x});
    }
  }

  lemma {:induction false} WithoutConcat<T>(s: seq<T>, t: seq<T>, d: set<T>)
    ensures Without(s + t, d) == Without(s, d) + Without(t, d)
  {
    if t == [] {
      assert s + t == s;
    } else {
      var front := t[..|t| - 1];
      assert (s + t)[..|s + t| - 1] == s + front;
      WithoutConcat(s, front, d);
    }
  }

  /** A duplicate-free sequence has as many elements as its set of elements. */
  lemma {:induction false} NoDupCard<T(!new)>(s: seq<T>)
    requires NoDup(s)
    ensures |set x | x in s| == |s|
  {
    if s != [] {
      var front, y := s[..|s| - 1], s[|s| - 1];
      NoDupCard(front);
      assert s == front + [y];
      assert (set x | x in s) == (set x | x in front) + {y};
    }
  }

  lemma LastAppend<T>(s: seq<T>, x: T, n: nat)
    ensures Last(s + [x], n) == Last(Last(s, n) + [x], n)
  {
    if |s| > n {
      var l := Last(s, n);
      assert (s + [x])[|s| + 1 - n..] == (l + [x])[1..];
    }
  }
}
