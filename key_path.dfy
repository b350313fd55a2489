/**
 * The key argument of `unset`: a dot-delimited string such as
 * `'deep.three'` or an array of segments such as `['deep', 'three']`, and
 * its normalisation to a sequence of segments.
 */
module KeyPath {
  import opened Wrappers

  datatype PathArg = StrPath(s: string) | SegPath(segs: seq<string>)

  /** `s` cut at every '.'; a string without a dot is one piece. */
  function SplitAll(s: string): (r: seq<string>)
    ensures |r| >= 1
    ensures forall i :: 0 <= i < |r| ==> '.' !in r[i]
    decreases |s|
  {
    if |s| == 0 then [""]
    else
      var rest := SplitAll(s[1..]);
      if s[0] == '.' then [""] + rest
      else [[s[0]] + rest[0]] + rest[1..]
  }

  /** The segments of a string key; the empty string names no segment at all. */
  function Split(s: string): (r: seq<string>)
    ensures r == [] <==> s == ""
    ensures forall i :: 0 <= i < |r| ==> '.' !in r[i]
  {
    if s == "" then [] else SplitAll(s)
  }

  /** The string key that names the segments `segs`. */
  function Join(segs: seq<string>): string
    decreases |segs|
  {
    if |segs| == 0 then ""
    else if |segs| == 1 then segs[0]
    else segs[0] + "." + Join(segs[1..])
  }

  /** The segments `unset` walks for its key argument; a missing key names none. */
  function Segments(key: Option<PathArg>): (r: seq<string>)
    ensures key == None ==> r == []
    ensures key == Some(StrPath("")) ==> r == []
    ensures key.Some? && key.value.SegPath? ==> r == key.value.segs
  {
    match key
    case None => []
    case Some(StrPath(s)) => Split(s)
    case Some(SegPath(segs)) => segs
  }

  /** A piece without a dot is not cut. */
  lemma {:induction false} SplitAllNoDot(a: string)
    requires '.' !in a
    ensures SplitAll(a) == [a]
    decreases |a|
  {
    if |a| > 0 {
      assert a[0] in a;
      SplitAllNoDot(a[1..]);
      assert [a[0]] + a[1..] == a;
    }
  }

  /** A dot-free piece followed by a dot is cut off as the first segment. */
  lemma {:induction false} SplitAllAfterPiece(a: string, rest: string)
    requires '.' !in a
    ensures SplitAll(a + "." + rest) == [a] + SplitAll(rest)
    decreases |a|
  {
    var s := a + "." + rest;
    if |a| == 0 {
      assert s == "." + rest;
      assert s[1..] == rest;
    } else {
      assert s[1..] == a[1..] + "." + rest;
      SplitAllAfterPiece(a[1..], rest);
      assert [a[0]] + a[1..] == a;
    }
  }

  /** Joining the pieces of a string gives the string back. */
  lemma {:induction false} JoinSplitAll(s: string)
    ensures Join(SplitAll(s)) == s
    decreases |s|
  {
    if |s| > 0 {
      var rest := SplitAll(s[1..]);
      JoinSplitAll(s[1..]);
      if s[0] == '.' {
        assert SplitAll(s)[1..] == rest;
        if |rest| == 1 {
          assert Join(SplitAll(s)) == "" + "." + rest[0];
        } else {
          assert Join(SplitAll(s)) == "" + "." + Join(rest);
        }
        assert s == [s[0]] + s[1..];
      } else {
        var r := SplitAll(s);
        assert r[0] == [s[0]] + rest[0];
        assert r[1..] == rest[1..];
        if |rest| == 1 {
          assert Join(r) == [s[0]] + rest[0];
        } else {
          assert rest == [rest[0]] + rest[1..];
          assert Join(rest) == rest[0] + "." + Join(rest[1..]);
          assert Join(r) == [s[0]] + rest[0] + "." + Join(rest[1..]);
        }
        assert s == [s[0]] + s[1..];
      }
    }
  }

  /** Every string key is the join of its segments. */
  lemma JoinSplit(s: string)
    ensures Join(Split(s)) == s
  {
    if s != "" {
      JoinSplitAll(s);
    }
  }

  /** Cutting the join of dot-free segments gives the segments back. */
  lemma {:induction false} SplitAllJoin(segs: seq<string>)
    requires |segs| >= 1
    requires forall i :: 0 <= i < |segs| ==> '.' !in segs[i]
    ensures SplitAll(Join(segs)) == segs
    decreases |segs|
  {
    if |segs| == 1 {
      SplitAllNoDot(segs[0]);
    } else {
      SplitAllJoin(segs[1..]);
      SplitAllAfterPiece(segs[0], Join(segs[1..]));
      assert [segs[0]] + segs[1..] == segs;
    }
  }

  /**
   * A string key and the array of its dot-free segments name the same path;
   * `[""]` is the one array that no string key names.
   */
  lemma StringAndArrayKeysAgree(segs: seq<string>)
    requires |segs| >= 1 && segs != [""]
    requires forall i :: 0 <= i < |segs| ==> '.' !in segs[i]
    ensures Segments(Some(StrPath(Join(segs)))) == Segments(Some(SegPath(segs)))
  {
    SplitAllJoin(segs);
  }
}
