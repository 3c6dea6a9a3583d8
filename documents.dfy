/**
 * Documents as the cache holds them: nested Python values decoded from the
 * document store (None, bool, int, str, list, dict with string keys), with
 * Python's `==` and `in` on them and the dotted-path walk of the update engine.
 */
module Documents {
  import opened Wrappers
  import opened PyText

  datatype Value =
    | VNull
    | VBool(b: bool)
    | VInt(i: int)
    | VStr(s: string)
    | VList(items: seq<Value>)
    | VMap(fields: map<string, Value>)

  /** A top-level document: a mapping from field names to values. */
  type Doc = map<string, Value>

  /** `d.get(k, default)`. */
  function Get(d: map<string, Value>, k: string, default: Value): Value
  {
    if k in d then d[k] else default
  }

  /** Python's integer view of a value: `isinstance(v, int)` holds for ints and bools (True is 1). */
  function AsInt(v: Value): (r: Option<int>)
    ensures r.Some? <==> v.VInt? || v.VBool?
    ensures v.VInt? ==> r == Some(v.i)
  {
    match v
    case VInt(i) => Some(i)
    case VBool(b) => Some(if b then 1 else 0)
    case _ => None
  }

  /** Python's `a == b` on decoded values: numbers compare by value across bool and int. */
  predicate PyEq(a: Value, b: Value)
    decreases a
  {
    match a
    case VNull => b.VNull?
    case VBool(_) => AsInt(b).Some? && AsInt(a) == AsInt(b)
    case VInt(_) => AsInt(b).Some? && AsInt(a) == AsInt(b)
    case VStr(s) => b.VStr? && b.s == s
    case VList(xs) =>
      b.VList? && |xs| == |b.items| && forall k :: 0 <= k < |xs| ==> PyEq(xs[k], b.items[k])
    case VMap(f) =>
      b.VMap? && f.Keys == b.fields.Keys && forall k :: k in f ==> PyEq(f[k], b.fields[k])
  }

  lemma {:induction false} PyEqReflexive(a: Value)
    ensures PyEq(a, a)
    decreases a
  {
    match a
    case VList(xs) =>
      forall k | 0 <= k < |xs| ensures PyEq(xs[k], xs[k]) {
        PyEqReflexive(xs[k]);
      }
    case VMap(f) =>
      forall k | k in f ensures PyEq(f[k], f[k]) {
        PyEqReflexive(f[k]);
      }
    case _ =>
  }

  /** `x in xs` for a Python list. */
  predicate PyIn(x: Value, xs: seq<Value>)
  {
    exists k :: 0 <= k < |xs| && PyEq(x, xs[k])
  }

  /**
   * The container a dotted path leads to, as `_update_db` finds it: every
   * intermediate must be a dict, and a missing one reads as a new empty dict
   * (`nested.setdefault(c, {})`). None when an intermediate is not a dict.
   */
  function Walk(v: Value, prefix: seq<string>): Option<Value>
    decreases |prefix|
  {
    if prefix == [] then Some(v)
    else if !v.VMap? then None
    else Walk(Get(v.fields, prefix[0], VMap(map[])), prefix[1..])
  }

  /** The value stored at a (non-empty) path, if any. */
  function Lookup(v: Value, path: seq<string>): Option<Value>
    requires |path| >= 1
  {
    match Walk(v, path[..|path| - 1])
    case Some(VMap(f)) => if path[|path| - 1] in f then Some(f[path[|path| - 1]]) else None
    case _ => None
  }
}
