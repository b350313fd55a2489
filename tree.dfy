/**
 * The in-memory object graph that `unset` works on: plain objects keyed by
 * strings, whose values are numbers, strings or further plain objects.
 */
module Tree {
  import opened Wrappers

  /** A JavaScript value as the tests use it; only `Obj` is a container. */
  datatype Value = Num(n: int) | Text(s: string) | Obj(fields: map<string, Value>)

  /**
   * The value reached from `v` by following `path` one key at a time, or
   * `None` when some key is missing or some step is not a plain object.
   */
  function Get(v: Value, path: seq<string>): Option<Value>
    decreases |path|
  {
    if |path| == 0 then Some(v)
    else match v
      case Obj(f) => if path[0] in f then Get(f[path[0]], path[1..]) else None
      case _ => None
  }

  /** A prefix of a path that resolves resolves to a plain object. */
  lemma {:induction false} PrefixResolves(v: Value, p: seq<string>, i: nat)
    requires i < |p| && Get(v, p).Some?
    ensures Get(v, p[..i]).Some? && Get(v, p[..i]).value.Obj?
    decreases i
  {
    if i > 0 {
      assert p[..i][1..] == p[1..][..i - 1];
      PrefixResolves(v.fields[p[0]], p[1..], i - 1);
    }
  }

  /** No plain object below the root is empty: every container keeps a key. */
  ghost predicate Pruned(v: Value)
  {
    v.Obj? ==>
      forall k :: k in v.fields ==>
        (v.fields[k].Obj? ==> v.fields[k].fields != map[]) && Pruned(v.fields[k])
  }

  /** `p` and `q` name different keys at some position both of them reach. */
  predicate Diverges(p: seq<string>, q: seq<string>)
    decreases |p|
  {
    |p| > 0 && |q| > 0 && (p[0] != q[0] || Diverges(p[1..], q[1..]))
  }
}
