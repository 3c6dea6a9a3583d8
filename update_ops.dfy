/**
 * The update-operator engine of `MongoDBHandler._update_db`: how `$set`,
 * `$unset`, `$inc`, `$push` and `$pull` edit a cached document along a dotted
 * path, with the checks and Python errors of the source.
 */
module UpdateOps {
  import opened Wrappers
  import opened PyText
  import opened Documents

  datatype Operator = Set | Unset | Inc | Push | Pull

  /** The operator names the engine accepts; any other name rejects the whole update. */
  function ParseOperator(name: string): (r: Option<Operator>)
    ensures r.Some? <==> name in {"$set", "$unset", "$inc", "$push", "$pull"}
  {
    if name == "$set" then Some(Set)
    else if name == "$unset" then Some(Unset)
    else if name == "$inc" then Some(Inc)
    else if name == "$push" then Some(Push)
    else if name == "$pull" then Some(Pull)
    else None
  }

  /** What went wrong while one edit was applied to its container. */
  datatype EditFault =
    | NotADict          // the container at the end of the path is not a dict
    | NonNumericField   // "Cannot increment non-numeric field"
    | NonArrayField     // "Cannot push to non-array field" / "Cannot pull from non-array field"
    | OperandTypeError  // the operand does not suit `+`, `extend`, a slice bound or `in`

  datatype UpdateError =
    | InvalidOperation                            // an operator outside the five
    | InvalidPath(key: string)                    // an intermediate of the path is not a dict
    | ErrorUpdating(key: string, fault: EditFault)

  /** One edit: a dotted key and its operand. */
  type Edit = (string, Value)

  /** An update: operator names with their edits, in the order the dicts hold them. */
  type Update = seq<(string, seq<Edit>)>

  predicate OperatorsValid(data: Update)
  {
    forall i :: 0 <= i < |data| ==> ParseOperator(data[i].0).Some?
  }

  /** Fields outside `k` are the same in `a` and `b`. */
  predicate SameExcept(a: map<string, Value>, b: map<string, Value>, k: string)
  {
    && (forall j :: j in a && j != k ==> j in b && b[j] == a[j])
    && (forall j :: j in b && j != k ==> j in a)
  }

  // ---------------------------------------------------------------- operands

  /**
   * `x in container`; None when Python raises TypeError (not iterable,
   * unhashable, non-str left operand).  A list holds `x` when one of its items
   * equals it, a dict only ever has string keys, and a string holds every
   * string that occurs in it at some position.
   */
  function Membership(x: Value, container: Value): (r: Option<bool>)
    ensures r.None? <==>
      !container.VList? && (container.VMap? ==> x.VList? || x.VMap?) && (container.VStr? ==> !x.VStr?)
    ensures container.VList? ==>
      (r == Some(true) <==> exists i :: 0 <= i < |container.items| && PyEq(x, container.items[i]))
    ensures container.VMap? && !(x.VList? || x.VMap?) ==> r == Some(x.VStr? && x.s in container.fields)
    ensures container.VStr? && x.VStr? ==>
      (r == Some(true) <==> exists i :: OccursAt(x.s, container.s, i))
  {
    match container
    case VList(xs) => Some(PyIn(x, xs))
    case VMap(f) =>
      (match x
       case VStr(s) => Some(s in f)
       case VList(_) => None
       case VMap(_) => None
       case _ => Some(false))
    case VStr(t) =>
      if x.VStr? then
        SubstringAt(x.s, t);
        Some(IsSubstring(x.s, t))
      else None
    case _ => None
  }

  /** `needle` fills the window of `hay` that starts at `i`. */
  predicate OccursAt(needle: string, hay: string, i: int)
  {
    0 <= i <= |hay| - |needle| && hay[i..i + |needle|] == needle
  }

  /** `needle in hay` for strings: the needle occurs at some position. */
  lemma SubstringAt(needle: string, hay: string)
    ensures IsSubstring(needle, hay) <==> exists i :: OccursAt(needle, hay, i)
  {
    if IsSubstring(needle, hay) {
      var i :| 0 <= i <= |hay| && needle <= hay[i..];
      assert OccursAt(needle, hay, i);
    }
    if exists i :: OccursAt(needle, hay, i) {
      var i :| OccursAt(needle, hay, i);
      assert needle <= hay[i..];
    }
  }

  /** The text of a sequence of string values, one after the other. */
  function Text(items: seq<Value>): string
  {
    if items == [] then "" else (if items[0].VStr? then items[0].s else "") + Text(items[1..])
  }

  /**
   * The items `list.extend` takes from an operand: a list's own items, or a
   * string's characters as one-character strings that spell it out again.
   */
  function Iterate(v: Value): (r: Option<seq<Value>>)
    ensures r.None? <==> !v.VList? && !v.VStr?
    ensures v.VList? ==> r.Some? && VList(r.value) == v
    ensures v.VStr? ==> r.Some? && |r.value| == |v.s| && Text(r.value) == v.s
    ensures v.VStr? ==> r.Some? && forall k :: 0 <= k < |r.value| ==> r.value[k].VStr? && |r.value[k].s| == 1
  {
    match v
    case VList(xs) => Some(xs)
    case VStr(s) =>
      var cs := seq(|s|, i requires 0 <= i < |s| => VStr([s[i]]));
      CharsSpell(s, cs);
      Some(cs)
    case _ => None
  }

  lemma {:induction false} CharsSpell(s: string, cs: seq<Value>)
    requires |cs| == |s| && forall i :: 0 <= i < |s| ==> cs[i] == VStr([s[i]])
    ensures Text(cs) == s
  {
    if s != [] {
      CharsSpell(s[1..], cs[1..]);
      assert s == [s[0]] + s[1..];
    }
  }

  /** A slice start as Python accepts it: an int, a bool, or None (from the beginning). */
  function SliceStart(v: Value): (r: Option<int>)
    ensures AsInt(v).Some? ==> r == AsInt(v)
    ensures v.VNull? ==> r == Some(0)
    ensures r.None? <==> !v.VNull? && AsInt(v).None?
  {
    match v
    case VNull => Some(0)
    case VInt(i) => Some(i)
    case VBool(b) => Some(if b then 1 else 0)
    case _ => None
  }

  /**
   * `[item for item in items if item not in values]`; None when an `in` test
   * raises.  What it keeps are items of the list that `values` does not hold.
   */
  function Retain(items: seq<Value>, values: Value): (r: Option<seq<Value>>)
    ensures r.None? <==> exists k :: 0 <= k < |items| && Membership(items[k], values).None?
    ensures r.Some? ==> Kept(items, values, r.value)
  {
    if items == [] then Some([])
    else
      match Membership(items[0], values)
      case None => None
      case Some(m) =>
        match Retain(items[1..], values)
        case None =>
          ghost var k :| 0 <= k < |items[1..]| && Membership(items[1..][k], values).None?;
          assert Membership(items[k + 1], values).None?;
          None
        case Some(rest) =>
          NoneRaises(items, values);
          RetainStep(items, values, m, rest);
          Some(if m then rest else [items[0]] + rest)
  }

  /**
   * `out` is what the comprehension keeps of `items`: no longer than the list,
   * only items `values` does not hold, every such item with its multiplicity,
   * and in the list's order.
   */
  ghost predicate Kept(items: seq<Value>, values: Value, out: seq<Value>)
  {
    && |out| <= |items|
    && (forall k :: 0 <= k < |out| ==> Membership(out[k], values) == Some(false))
    && (forall k :: 0 <= k < |out| ==> out[k] in items)
    && (forall x :: Membership(x, values) == Some(false) ==> multiset(out)[x] == multiset(items)[x])
    && Subsequence(out, items)
  }

  /** No `in` test raises on the list when none raises on its head or its tail. */
  lemma NoneRaises(items: seq<Value>, values: Value)
    requires items != [] && Membership(items[0], values).Some?
    requires forall k :: 0 <= k < |items| - 1 ==> Membership(items[1..][k], values).Some?
    ensures forall k :: 0 <= k < |items| ==> Membership(items[k], values).Some?
  {
    forall k | 1 <= k < |items| ensures Membership(items[k], values).Some? {
      assert items[k] == items[1..][k - 1];
    }
  }

  /** One step of the comprehension: the head is dropped or kept, and the tail's counts and order carry over. */
  lemma RetainStep(items: seq<Value>, values: Value, m: bool, rest: seq<Value>)
    requires items != [] && Membership(items[0], values) == Some(m)
    requires Kept(items[1..], values, rest)
    ensures Kept(items, values, if m then rest else [items[0]] + rest)
  {
    if m {
      RetainDrop(items, values, rest);
    } else {
      RetainKeep(items, values, rest);
    }
  }

  lemma RetainDrop(items: seq<Value>, values: Value, rest: seq<Value>)
    requires items != [] && Membership(items[0], values) == Some(true)
    requires Kept(items[1..], values, rest)
    ensures Kept(items, values, rest)
  {
    assert forall k :: 0 <= k < |rest| ==> rest[k] != items[0];
    forall x | Membership(x, values) == Some(false) ensures multiset(rest)[x] == multiset(items)[x] {
      CountStep(items, rest, x, true);
    }
    SubsequenceStep(items, rest, true);
  }

  lemma RetainKeep(items: seq<Value>, values: Value, rest: seq<Value>)
    requires items != [] && Membership(items[0], values) == Some(false)
    requires Kept(items[1..], values, rest)
    ensures Kept(items, values, [items[0]] + rest)
  {
    var out := [items[0]] + rest;
    forall k | 0 <= k < |out|
      ensures Membership(out[k], values) == Some(false) && out[k] in items
    {
      if k > 0 {
        assert out[k] == rest[k - 1];
      }
    }
    forall x | Membership(x, values) == Some(false) ensures multiset(out)[x] == multiset(items)[x] {
      CountStep(items, rest, x, false);
    }
    SubsequenceStep(items, rest, false);
  }

  /** Dropping or keeping the head keeps the count of any value other than a dropped head. */
  lemma CountStep(items: seq<Value>, rest: seq<Value>, x: Value, drop: bool)
    requires items != [] && (drop ==> x != items[0])
    requires multiset(rest)[x] == multiset(items[1..])[x]
    ensures multiset(if drop then rest else [items[0]] + rest)[x] == multiset(items)[x]
  {
    assert items == [items[0]] + items[1..];
    assert multiset(items) == multiset{items[0]} + multiset(items[1..]);
    assert multiset([items[0]] + rest) == multiset{items[0]} + multiset(rest);
  }

  /** Dropping the head (absent from the rest) or keeping it extends a subsequence of the tail. */
  lemma SubsequenceStep(items: seq<Value>, rest: seq<Value>, drop: bool)
    requires items != [] && Subsequence(rest, items[1..])
    requires drop ==> forall k :: 0 <= k < |rest| ==> rest[k] != items[0]
    ensures Subsequence(if drop then rest else [items[0]] + rest, items)
  {
    if !drop {
      assert ([items[0]] + rest)[1..] == rest;
    }
  }

  /** `a` is `b` with some items left out, the others kept in order. */
  predicate Subsequence(a: seq<Value>, b: seq<Value>)
  {
    if a == [] then true
    else if b == [] then false
    else if a[0] == b[0] then Subsequence(a[1..], b[1..])
    else Subsequence(a, b[1..])
  }

  /** The items of a list that are not equal to any of `vs`, in order. */
  function Without(items: seq<Value>, vs: seq<Value>): (r: seq<Value>)
    ensures forall k :: 0 <= k < |r| ==> !PyIn(r[k], vs)
    ensures forall x :: multiset(r)[x] == if PyIn(x, vs) then 0 else multiset(items)[x]
    ensures Subsequence(r, items)
  {
    if items == [] then []
    else
      var rest := Without(items[1..], vs);
      assert multiset(items) == multiset{items[0]} + multiset(items[1..]) by {
        assert items == [items[0]] + items[1..];
      }
      if PyIn(items[0], vs) then
        assert rest != [] ==> rest[0] != items[0];
        rest
      else
        assert multiset([items[0]] + rest) == multiset{items[0]} + multiset(rest);
        [items[0]] + rest
  }

  /** Against a list operand, the comprehension never raises and keeps exactly the unequal items. */
  lemma {:induction false} RetainList(items: seq<Value>, vs: seq<Value>)
    ensures Retain(items, VList(vs)) == Some(Without(items, vs))
  {
    if items != [] {
      RetainList(items[1..], vs);
    }
  }

  /** The new list `$push` leaves: one item appended, or `$each` extended and then cut to `arr[$slice:]`. */
  function Pushed(arr: seq<Value>, x: Value): Option<seq<Value>>
  {
    if x.VMap? && "$each" in x.fields then
      match Iterate(x.fields["$each"])
      case None => None
      case Some(each) =>
        if "$slice" in x.fields then
          match SliceStart(x.fields["$slice"])
          case None => None
          case Some(s) => Some(PySliceFrom(arr + each, s))
        else Some(arr + each)
    else Some(arr + [x])
  }

  // ---------------------------------------------------------------- one edit

  /** One operator applied to field `field` of the container `c` the path led to. */
  function Leaf(c: Value, field: string, op: Operator, x: Value): (r: Result<Value, EditFault>)
    ensures r.Success? && c.VMap? ==> r.value.VMap? && SameExcept(c.fields, r.value.fields, field)
    ensures r.Success? && !c.VMap? ==> r.value == c
  {
    match op
    case Set =>
      if c.VMap? then Success(VMap(c.fields[field := x])) else Failure(NotADict)
    case Unset =>
      if c.VMap? then Success(VMap(c.fields - {field})) else Failure(NotADict)
    case Inc =>
      if !c.VMap? then Failure(NotADict)
      else
        (match AsInt(Get(c.fields, field, VInt(0)))
         case None => Failure(NonNumericField)
         case Some(n) =>
           (match AsInt(x)
            case None => Failure(OperandTypeError)
            case Some(d) => Success(VMap(c.fields[field := VInt(n + d)]))))
    case Push =>
      if !c.VMap? then Failure(NotADict)
      else
        var arr := Get(c.fields, field, VList([]));
        if !arr.VList? then Failure(NonArrayField)
        else
          (match Pushed(arr.items, x)
           case None => Failure(OperandTypeError)
           case Some(items) => Success(VMap(c.fields[field := VList(items)])))
    case Pull =>
      match Membership(VStr(field), c)
      case None => Failure(NotADict)
      case Some(false) => Success(c)
      case Some(true) =>
        if !c.VMap? then Failure(NotADict)
        else
          var cur := c.fields[field];
          if !cur.VList? then Failure(NonArrayField)
          else
            var values := if x.VMap? then Get(x.fields, "$in", VList([])) else VList([x]);
            match Retain(cur.items, values)
            case None => Failure(OperandTypeError)
            case Some(kept) => Success(VMap(c.fields[field := VList(kept)]))
  }

  /** One edit along a split path: walk the intermediates, then apply the operator to the last field. */
  function EditAt(v: Value, path: seq<string>, op: Operator, key: string, x: Value): (r: Result<Value, UpdateError>)
    requires |path| >= 1
    ensures r.Success? && v.VMap? ==> r.value.VMap? && SameExcept(v.fields, r.value.fields, path[0])
    ensures r.Success? && !v.VMap? ==> r.value == v
    ensures r.Failure? ==> r.error == InvalidPath(key) || (r.error.ErrorUpdating? && r.error.key == key)
    decreases |path|
  {
    if |path| == 1 then
      match Leaf(v, path[0], op, x)
      case Success(c) => Success(c)
      case Failure(f) => Failure(ErrorUpdating(key, f))
    else if !v.VMap? then Failure(InvalidPath(key))
    else
      match EditAt(Get(v.fields, path[0], VMap(map[])), path[1..], op, key, x)
      case Success(child) => Success(VMap(v.fields[path[0] := child]))
      case Failure(e) => Failure(e)
  }

  /** One edit on a document: `key.split(".")` gives the path. */
  function ApplyEdit(doc: Doc, op: Operator, key: string, x: Value): (r: Result<Doc, UpdateError>)
    ensures r.Success? ==> SameExcept(doc, r.value, Split(key, '.')[0])
    ensures r.Failure? ==> r.error != InvalidOperation
  {
    match EditAt(VMap(doc), Split(key, '.'), op, key, x)
    case Success(v) => Success(v.fields)
    case Failure(e) => Failure(e)
  }

  /** The edits of one operator, in order; the first failure stops. */
  function ApplyEdits(doc: Doc, op: Operator, edits: seq<Edit>): (r: Result<Doc, UpdateError>)
    ensures r != Failure(InvalidOperation)
    decreases |edits|
  {
    if edits == [] then Success(doc)
    else
      match ApplyEdit(doc, op, edits[0].0, edits[0].1)
      case Failure(e) => Failure(e)
      case Success(d) => ApplyEdits(d, op, edits[1..])
  }

  /** Every operator's edits, in order. */
  function ApplyAll(doc: Doc, data: Update): (r: Result<Doc, UpdateError>)
    requires OperatorsValid(data)
    ensures r != Failure(InvalidOperation)
    decreases |data|
  {
    if data == [] then Success(doc)
    else
      match ApplyEdits(doc, ParseOperator(data[0].0).value, data[0].1)
      case Failure(e) => Failure(e)
      case Success(d) => ApplyAll(d, data[1..])
  }

  /** The whole update as the cache sees it: operator names are checked before anything is edited. */
  function ApplyUpdate(doc: Doc, data: Update): (r: Result<Doc, UpdateError>)
    ensures !OperatorsValid(data) <==> r == Failure(InvalidOperation)
  {
    if !OperatorsValid(data) then Failure(InvalidOperation) else ApplyAll(doc, data)
  }

  // ---------------------------------------------------------------- the cache-update loop

  /**
   * The in-place loop of `_update_db` run on the document it was handed: every
   * operator name is validated first, then each operator's edits are applied
   * in order, and the first failing edit ends the update.
   */
  method ApplyOperations(doc: Doc, data: Update) returns (r: Result<Doc, UpdateError>)
    ensures r == ApplyUpdate(doc, data)
  {
    var i := 0;
    while i < |data|
      invariant 0 <= i <= |data|
      invariant forall j :: 0 <= j < i ==> ParseOperator(data[j].0).Some?
    {
      if ParseOperator(data[i].0).None? {
        return Failure(InvalidOperation);
      }
      i := i + 1;
    }
    var cache := doc;
    i := 0;
    while i < |data|
      invariant 0 <= i <= |data|
      invariant ApplyAll(doc, data) == ApplyAll(cache, data[i..])
    {
      var op := ParseOperator(data[i].0).value;
      var edits := data[i].1;
      ghost var before := cache;
      var j := 0;
      while j < |edits|
        invariant 0 <= j <= |edits|
        invariant ApplyEdits(before, op, edits) == ApplyEdits(cache, op, edits[j..])
      {
        var e := ApplyEdit(cache, op, edits[j].0, edits[j].1);
        if e.Failure? {
          return Failure(e.error);
        }
        cache := e.value;
        j := j + 1;
      }
      assert data[i..][1..] == data[i + 1..];
      i := i + 1;
    }
    return Success(cache);
  }
}
