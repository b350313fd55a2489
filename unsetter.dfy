/**
 * `unset(obj, key)`: delete the value at a key path from a plain object,
 * in place, and remove every object on the path that the deletion left
 * empty, up to but not including the object passed in.
 */
module Unsetter {
  import opened Wrappers
  import opened Tree
  import opened KeyPath

  /**
   * Delete `path` from the object with fields `m`: descend through the plain
   * objects the path names, delete the last key, and on the way back drop
   * each object that is left without keys. A missing key or a step that is
   * not a plain object stops the descent and changes nothing below it.
   */
  function UnsetIn(m: map<string, Value>, path: seq<string>): (r: map<string, Value>)
    ensures r.Keys <= m.Keys
    ensures |path| > 0 ==> forall k :: k in m && k != path[0] ==> k in r && r[k] == m[k]
    ensures |path| == 1 ==> r.Keys == m.Keys - {path[0]}
    decreases |path|
  {
    if |path| == 0 then m
    else
      var key := path[0];
      if |path| == 1 then m - {key}
      else if key in m && m[key].Obj? then
        var child := UnsetIn(m[key].fields, path[1..]);
        if child == map[] then m - {key} else m[key := Obj(child)]
      else m
  }

  /**
   * What `unset(target, key)` leaves in `target`: a value that is not a plain
   * object is left as it is, and a plain object stays a plain object (the
   * root is emptied at most, never removed).
   */
  function UnsetValue(target: Value, key: Option<PathArg>): (r: Value)
    ensures r.Obj? <==> target.Obj?
    ensures !target.Obj? ==> r == target
    ensures Segments(key) == [] ==> r == target
  {
    match target
    case Obj(m) => Obj(UnsetIn(m, Segments(key)))
    case _ => target
  }

  /** The variable a caller passes to `unset`, whose object is changed in place. */
  class Target {
    var root: Value

    constructor (v: Value)
      ensures root == v
    {
      root := v;
    }

    /** Delete `key` from `root` and collapse the objects the deletion emptied. */
    method Unset(key: Option<PathArg>)
      modifies this
      ensures root == UnsetValue(old(root), key)
    {
      root := UnsetValue(root, key);
    }
  }

  /** A string key and the array of its segments leave any target alike. */
  lemma StringAndArrayKeysUnsetAlike(target: Value, segs: seq<string>)
    requires |segs| >= 1 && segs != [""]
    requires forall i :: 0 <= i < |segs| ==> '.' !in segs[i]
    ensures UnsetValue(target, Some(StrPath(Join(segs)))) == UnsetValue(target, Some(SegPath(segs)))
  {
    StringAndArrayKeysAgree(segs);
  }

  /** After the call nothing is left at the path that was unset. */
  lemma {:induction false} LeafRemoved(m: map<string, Value>, p: seq<string>)
    requires |p| > 0
    ensures Get(Obj(UnsetIn(m, p)), p) == None
    decreases |p|
  {
    var k := p[0];
    if |p| > 1 && k in m && m[k].Obj? {
      var child := UnsetIn(m[k].fields, p[1..]);
      if child != map[] {
        LeafRemoved(m[k].fields, p[1..]);
      }
    }
  }

  /** Every path that leaves `p` at some key keeps the value it had. */
  lemma {:induction false} SiblingsUntouched(m: map<string, Value>, p: seq<string>, q: seq<string>)
    requires Diverges(p, q)
    ensures Get(Obj(UnsetIn(m, p)), q) == Get(Obj(m), q)
    decreases |p|
  {
    var k := p[0];
    if q[0] == k && |p| > 1 && k in m && m[k].Obj? {
      var f := m[k].fields;
      var child := UnsetIn(f, p[1..]);
      SiblingsUntouched(f, p[1..], q[1..]);
      if child == map[] {
        assert Get(Obj(child), q[1..]) == None;
      }
    }
  }

  /**
   * An ancestor of the deleted key that was a plain object is kept, holding
   * the result of the deletion inside it, exactly when that result still has
   * a key; otherwise it has been removed.
   */
  lemma {:induction false} AncestorKeptOrCollapsed(m: map<string, Value>, p: seq<string>, i: nat, f: map<string, Value>)
    requires 0 < i < |p|
    requires Get(Obj(m), p[..i]) == Some(Obj(f))
    ensures Get(Obj(UnsetIn(m, p)), p[..i]) ==
              (var g := UnsetIn(f, p[i..]); if g == map[] then None else Some(Obj(g)))
    decreases i
  {
    var k := p[0];
    var rest := p[1..];
    assert p[..i][1..] == rest[..i - 1];
    if i == 1 {
      assert rest == p[i..];
    } else {
      var f1 := m[k].fields;
      var child := UnsetIn(f1, rest);
      AncestorKeptOrCollapsed(f1, rest, i - 1, f);
      assert rest[i - 1..] == p[i..];
      if child == map[] {
        assert Get(Obj(child), rest[..i - 1]) == None;
      }
    }
  }

  /**
   * Deleting a key whose object keeps other keys removes that key only: the
   * parent object and every ancestor above it remain.
   */
  lemma DeepRemovalKeepsParent(m: map<string, Value>, p: seq<string>, f: map<string, Value>)
    requires |p| >= 2
    requires Get(Obj(m), p[..|p| - 1]) == Some(Obj(f))
    requires f.Keys - {p[|p| - 1]} != {}
    ensures Get(Obj(UnsetIn(m, p)), p[..|p| - 1]) == Some(Obj(f - {p[|p| - 1]}))
    ensures forall i :: 0 <= i < |p| ==> Get(Obj(UnsetIn(m, p)), p[..i]).Some?
  {
    var n := |p| - 1;
    AncestorKeptOrCollapsed(m, p, n, f);
    assert p[n..] == [p[n]];
    var r := Obj(UnsetIn(m, p));
    forall i | 0 <= i < |p|
      ensures Get(r, p[..i]).Some?
    {
      if i < n {
        PrefixResolves(r, p[..n], i);
        assert p[..n][..i] == p[..i];
      }
    }
  }

  /**
   * The objects along `p` hold nothing but the next key of the path, so
   * that deleting `p` leaves the object passed in without keys.
   */
  predicate Clears(m: map<string, Value>, p: seq<string>)
    decreases |p|
  {
    |p| > 0 && m.Keys <= {p[0]} &&
    (p[0] in m && |p| > 1 ==> m[p[0]].Obj? && Clears(m[p[0]].fields, p[1..]))
  }

  /** Deleting `p` empties the object exactly when every object on `p` is a bare chain. */
  lemma {:induction false} CollapsesToEmpty(m: map<string, Value>, p: seq<string>)
    requires |p| > 0
    ensures UnsetIn(m, p) == map[] <==> Clears(m, p)
    decreases |p|
  {
    var k := p[0];
    var r := UnsetIn(m, p);
    if r == map[] {
      assert m.Keys <= {k};
    }
    if |p| > 1 && k in m && m[k].Obj? {
      var child := UnsetIn(m[k].fields, p[1..]);
      CollapsesToEmpty(m[k].fields, p[1..]);
      if child != map[] {
        assert k in r;
      }
    } else if |p| > 1 && k in m {
      assert k in r;
    }
  }

  /** Deleting never leaves an empty object below the root when there was none. */
  lemma {:induction false} PrunedPreserved(m: map<string, Value>, p: seq<string>)
    requires Pruned(Obj(m))
    ensures Pruned(Obj(UnsetIn(m, p)))
    decreases |p|
  {
    if |p| > 1 {
      var k := p[0];
      if k in m && m[k].Obj? {
        PrunedPreserved(m[k].fields, p[1..]);
      }
    }
  }
}
