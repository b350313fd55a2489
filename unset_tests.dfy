/**
 * The cases of the `unset(obj, key)` test suite. Each method allocates the
 * object the test binds, calls `Unset` on it in place and returns what the
 * test then inspects; the lemmas before them work out the expected objects.
 */
module UnsetTests {
  import opened Wrappers
  import opened Tree
  import opened KeyPath
  import opened Unsetter

  /** `{ one: 1, two: 2, deep: { three: 3, four: 4 } }`, rebuilt before each removal test. */
  function Fixture(): Value
  {
    Obj(map["one" := Num(1), "two" := Num(2),
            "deep" := Obj(map["three" := Num(3), "four" := Num(4)])])
  }

  /** `{ one: { two: { three: 3 } } }`, a chain with a single leaf. */
  function Chain(): Value
  {
    Obj(map["one" := Obj(map["two" := Obj(map["three" := Num(3)])])])
  }

  /** The string key `s` walks the segments `segs`, by the join round trip. */
  lemma KeySegments(s: string, segs: seq<string>)
    requires |segs| >= 1 && segs != [""] && forall i :: 0 <= i < |segs| ==> '.' !in segs[i]
    requires Join(segs) == s
    ensures Segments(Some(StrPath(s))) == segs
  {
    StringAndArrayKeysAgree(segs);
  }

  lemma KeyOneTwoThree()
    ensures Segments(Some(StrPath("one.two.three"))) == ["one", "two", "three"]
  {
    KeySegments("one.two.three", ["one", "two", "three"]);
  }

  lemma KeyOneTwoFour()
    ensures Segments(Some(StrPath("one.two.four"))) == ["one", "two", "four"]
  {
    KeySegments("one.two.four", ["one", "two", "four"]);
  }

  /** Deleting `k.leaf` where `k` keeps other keys replaces `k` by itself without `leaf`. */
  lemma DeleteBelow(m: map<string, Value>, k: string, leaf: string, rest: map<string, Value>)
    requires k in m && m[k].Obj? && m[k].fields - {leaf} == rest && rest != map[]
    ensures UnsetIn(m, [k, leaf]) == m[k := Obj(rest)]
  {
  }

  /** Deleting `two` from the fixture. */
  lemma TwoRemoved()
    ensures UnsetIn(Fixture().fields, ["two"]) ==
              map["one" := Num(1), "deep" := Obj(map["three" := Num(3), "four" := Num(4)])]
  {
  }

  /** Deleting `deep.three` from the fixture keeps `deep`, which still holds `four`. */
  lemma DeepThreeRemoved()
    ensures UnsetIn(Fixture().fields, ["deep", "three"]) ==
              map["one" := Num(1), "two" := Num(2), "deep" := Obj(map["four" := Num(4)])]
  {
    var m := Fixture().fields;
    assert (m["deep"].fields - {"three"}).Keys == {"four"};
    DeleteBelow(m, "deep", "three", map["four" := Num(4)]);
    assert m["deep" := Obj(map["four" := Num(4)])].Keys == {"one", "two", "deep"};
  }

  /** Deleting `one.two.three` where `two` also holds `four` keeps the chain. */
  lemma ChainThreeRemoved()
    ensures UnsetIn(map["one" := Obj(map["two" := Obj(map["three" := Num(3), "four" := Num(4)])])], ["one", "two", "three"])
              == map["one" := Obj(map["two" := Obj(map["four" := Num(4)])])]
  {
    var m := map["one" := Obj(map["two" := Obj(map["three" := Num(3), "four" := Num(4)])])];
    var two := m["one"].fields;
    assert (two["two"].fields - {"three"}).Keys == {"four"};
    DeleteBelow(two, "two", "three", map["four" := Num(4)]);
    var child := two["two" := Obj(map["four" := Num(4)])];
    assert child.Keys == {"two"};
    assert child == map["two" := Obj(map["four" := Num(4)])];
    assert ["one", "two", "three"][1..] == ["two", "three"];
    assert UnsetIn(m, ["one", "two", "three"]) == m["one" := Obj(child)];
    assert m["one" := Obj(child)].Keys == {"one"};
  }

  /** Deleting `one.two.three` or `one.two` from the bare chain `Chain()` empties it. */
  lemma ChainCleared()
    ensures UnsetIn(Chain().fields, ["one", "two", "three"]) == map[]
    ensures UnsetIn(Chain().fields, ["one", "two"]) == map[]
  {
  }

  /** Deleting the last leaf `one.two.four` empties the whole chain. */
  lemma ChainFourCleared()
    ensures UnsetIn(map["one" := Obj(map["two" := Obj(map["four" := Num(4)])])], ["one", "two", "four"]) == map[]
  {
  }

  /** A string target is not an object, so nothing happens to it. */
  method NotGivenAnObject() returns (after: Value)
    ensures after == Text("hello")
  {
    var obj := new Target(Text("hello"));
    obj.Unset(Some(StrPath("e")));
    after := obj.root;
  }

  /** Without a key the object is left as it was. */
  method NotGivenAKey() returns (after: Value)
    ensures after == Obj(map["one" := Num(1)])
  {
    var obj := new Target(Obj(map["one" := Num(1)]));
    obj.Unset(None);
    after := obj.root;
  }

  /** The empty string names no key, not the key `""`. */
  method EmptyStringKey() returns (after: Value)
    ensures after == Obj(map["one" := Num(1)])
  {
    var obj := new Target(Obj(map["one" := Num(1)]));
    obj.Unset(Some(StrPath("")));
    after := obj.root;
  }

  /** `'two'` removes the top-level key and leaves the rest, `deep` included. */
  method ShallowRemovalStringKey() returns (after: Value)
    ensures after == Obj(map["one" := Num(1), "deep" := Obj(map["three" := Num(3), "four" := Num(4)])])
  {
    var obj := new Target(Fixture());
    KeySegments("two", ["two"]);
    TwoRemoved();
    obj.Unset(Some(StrPath("two")));
    after := obj.root;
  }

  /** `['two']` does the same as `'two'`. */
  method ShallowRemovalArrayKey() returns (after: Value)
    ensures after == Obj(map["one" := Num(1), "deep" := Obj(map["three" := Num(3), "four" := Num(4)])])
  {
    var obj := new Target(Fixture());
    TwoRemoved();
    obj.Unset(Some(SegPath(["two"])));
    after := obj.root;
  }

  /** `'deep.three'` removes the leaf only: `deep` keeps `four`. */
  method DeepRemovalStringKey() returns (after: Value)
    ensures after == Obj(map["one" := Num(1), "two" := Num(2), "deep" := Obj(map["four" := Num(4)])])
  {
    var obj := new Target(Fixture());
    KeySegments("deep.three", ["deep", "three"]);
    DeepThreeRemoved();
    obj.Unset(Some(StrPath("deep.three")));
    after := obj.root;
  }

  /** `['deep', 'three']` does the same as `'deep.three'`. */
  method DeepRemovalArrayKey() returns (after: Value)
    ensures after == Obj(map["one" := Num(1), "two" := Num(2), "deep" := Obj(map["four" := Num(4)])])
  {
    var obj := new Target(Fixture());
    DeepThreeRemoved();
    obj.Unset(Some(SegPath(["deep", "three"])));
    after := obj.root;
  }

  /** Removing the only leaf collapses both ancestors; the root stays, empty. */
  method ClearWhenOnlyValueRemoved() returns (after: Value)
    ensures after == Obj(map[])
  {
    var obj := new Target(Chain());
    KeySegments("one.two.three", ["one", "two", "three"]);
    ChainCleared();
    obj.Unset(Some(StrPath("one.two.three")));
    after := obj.root;
  }

  /** Removing the only key of `one` collapses `one`; the root stays, empty. */
  method ClearWhenNoPropsLeft() returns (after: Value)
    ensures after == Obj(map[])
  {
    var obj := new Target(Chain());
    KeySegments("one.two", ["one", "two"]);
    ChainCleared();
    obj.Unset(Some(StrPath("one.two")));
    after := obj.root;
  }

  /**
   * Two removals on the same object: the first leaves `two` holding `four`,
   * the second empties `two`, then `one`, leaving an empty root.
   */
  method RemoveDeepThenClear() returns (first: Value, second: Value)
    ensures first == Obj(map["one" := Obj(map["two" := Obj(map["four" := Num(4)])])])
    ensures second == Obj(map[])
  {
    var start := map["one" := Obj(map["two" := Obj(map["three" := Num(3), "four" := Num(4)])])];
    var obj := new Target(Obj(start));
    KeyOneTwoThree();
    KeyOneTwoFour();
    ChainThreeRemoved();
    obj.Unset(Some(StrPath("one.two.three")));
    first := obj.root;
    ChainFourCleared();
    obj.Unset(Some(StrPath("one.two.four")));
    second := obj.root;
  }
}
