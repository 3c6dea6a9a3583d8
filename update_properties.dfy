/**
 * What each update operator does to the field a dotted key names, stated over
 * the document before the edit, and the quirks of the operator engine.
 */
module UpdateProperties {
  import opened Wrappers
  import opened PyText
  import opened Documents
  import opened UpdateOps

  /** The intermediates of a key: everything before the last dot-separated field. */
  function Prefix(key: string): seq<string>
  {
    var path := Split(key, '.');
    path[..|path| - 1]
  }

  /** The last dot-separated field of a key. */
  function LastField(key: string): string
  {
    var path := Split(key, '.');
    path[|path| - 1]
  }

  /** The container the edit for `key` lands in (None when an intermediate is not a dict). */
  function Container(doc: Doc, key: string): Option<Value>
  {
    Walk(VMap(doc), Prefix(key))
  }

  /**
   * Walking a path and applying the operator at its end: a non-dict
   * intermediate gives "Invalid path"; otherwise the edit succeeds exactly when
   * the operator succeeds on the container reached, and afterwards the path
   * leads to the edited container.
   */
  lemma {:induction false} EditAtWalk(v: Value, path: seq<string>, op: Operator, key: string, x: Value)
    requires |path| >= 1
    ensures Walk(v, path[..|path| - 1]).None? ==> EditAt(v, path, op, key, x) == Failure(InvalidPath(key))
    ensures Walk(v, path[..|path| - 1]).Some? ==>
      var c := Walk(v, path[..|path| - 1]).value;
      var leaf := Leaf(c, path[|path| - 1], op, x);
      && (leaf.Failure? ==> EditAt(v, path, op, key, x) == Failure(ErrorUpdating(key, leaf.error)))
      && (leaf.Success? ==>
            && EditAt(v, path, op, key, x).Success?
            && Walk(EditAt(v, path, op, key, x).value, path[..|path| - 1]) == Some(leaf.value))
    decreases |path|
  {
    if |path| > 1 && v.VMap? {
      var child := Get(v.fields, path[0], VMap(map[]));
      EditAtWalk(child, path[1..], op, key, x);
      assert path[1..][..|path[1..]| - 1] == path[..|path| - 1][1..];
      assert path[1..][|path[1..]| - 1] == path[|path| - 1];
    }
  }

  /** The edit of `key` as seen from the document: what the operator does at the container. */
  lemma ApplyEditAtContainer(doc: Doc, op: Operator, key: string, x: Value)
    ensures Container(doc, key).None? ==> ApplyEdit(doc, op, key, x) == Failure(InvalidPath(key))
    ensures Container(doc, key).Some? ==>
      var leaf := Leaf(Container(doc, key).value, LastField(key), op, x);
      && (leaf.Failure? ==> ApplyEdit(doc, op, key, x) == Failure(ErrorUpdating(key, leaf.error)))
      && (leaf.Success? ==>
            && ApplyEdit(doc, op, key, x).Success?
            && Container(ApplyEdit(doc, op, key, x).value, key) == Some(leaf.value))
  {
    EditAtWalk(VMap(doc), Split(key, '.'), op, key, x);
  }

  /**
   * A successful edit touches nothing off its path: at every level, the dict
   * the path passes through keeps all its fields but the next one on the path
   * (a non-dict container at the end is left as it was).
   */
  lemma {:induction false} EditAtFrames(v: Value, path: seq<string>, op: Operator, key: string, x: Value, k: nat)
    requires |path| >= 1 && k < |path|
    requires EditAt(v, path, op, key, x).Success?
    ensures Walk(v, path[..k]).Some? && Walk(EditAt(v, path, op, key, x).value, path[..k]).Some?
    ensures var a, b := Walk(v, path[..k]).value, Walk(EditAt(v, path, op, key, x).value, path[..k]).value;
      if a.VMap? then b.VMap? && SameExcept(a.fields, b.fields, path[k]) else b == a
    decreases |path|
  {
    if k == 0 {
      assert path[..0] == [];
    } else {
      var child := Get(v.fields, path[0], VMap(map[]));
      EditAtFrames(child, path[1..], op, key, x, k - 1);
      assert path[..k][1..] == path[1..][..k - 1];
      assert path[1..][k - 1] == path[k];
    }
  }

  /** The same on a document: `$set "playlist.201.name"` leaves `playlist["200"]` and every other sibling alone. */
  lemma ApplyEditFrames(doc: Doc, op: Operator, key: string, x: Value, k: nat)
    requires ApplyEdit(doc, op, key, x).Success? && k < |Split(key, '.')|
    ensures var path := Split(key, '.');
      && Walk(VMap(doc), path[..k]).Some?
      && Walk(VMap(ApplyEdit(doc, op, key, x).value), path[..k]).Some?
      && var a, b := Walk(VMap(doc), path[..k]).value, Walk(VMap(ApplyEdit(doc, op, key, x).value), path[..k]).value;
         if a.VMap? then b.VMap? && SameExcept(a.fields, b.fields, path[k]) else b == a
  {
    EditAtFrames(VMap(doc), Split(key, '.'), op, key, x, k);
  }

  /**
   * `$set` writes the operand at the path, creating missing intermediate dicts;
   * a non-dict intermediate fails with "Invalid path", a non-dict container
   * fails inside the edit.
   */
  lemma SetWritesAtPath(doc: Doc, key: string, x: Value)
    ensures Container(doc, key).None? ==> ApplyEdit(doc, Set, key, x) == Failure(InvalidPath(key))
    ensures Container(doc, key).Some? && !Container(doc, key).value.VMap? ==>
      ApplyEdit(doc, Set, key, x) == Failure(ErrorUpdating(key, NotADict))
    ensures Container(doc, key).Some? && Container(doc, key).value.VMap? ==>
      ApplyEdit(doc, Set, key, x).Success? &&
      Lookup(VMap(ApplyEdit(doc, Set, key, x).value), Split(key, '.')) == Some(x)
  {
    ApplyEditAtContainer(doc, Set, key, x);
  }

  /** `$unset` removes the field wherever the container is a dict, whether or not it was there. */
  lemma UnsetRemovesAtPath(doc: Doc, key: string, x: Value)
    ensures Container(doc, key).None? ==> ApplyEdit(doc, Unset, key, x) == Failure(InvalidPath(key))
    ensures Container(doc, key).Some? && !Container(doc, key).value.VMap? ==>
      ApplyEdit(doc, Unset, key, x) == Failure(ErrorUpdating(key, NotADict))
    ensures Container(doc, key).Some? && Container(doc, key).value.VMap? ==>
      ApplyEdit(doc, Unset, key, x).Success? &&
      Lookup(VMap(ApplyEdit(doc, Unset, key, x).value), Split(key, '.')) == None
  {
    ApplyEditAtContainer(doc, Unset, key, x);
  }

  /** `$unset` on a single top-level field that is absent leaves the document as it was. */
  lemma UnsetAbsentTopLevelIsNoOp(doc: Doc, key: string, x: Value)
    requires '.' !in key && key !in doc
    ensures ApplyEdit(doc, Unset, key, x) == Success(doc)
  {
    SplitNoSeparator(key, '.');
    assert doc - {key} == doc;
  }

  /** `$unset` still creates the missing intermediates of its path: unsetting "a.b" in `{}` leaves `{"a": {}}`. */
  lemma UnsetCreatesIntermediates()
    ensures ApplyEdit(map[], Unset, "a.b", VInt(1)) == Success(map["a" := VMap(map[])])
  {
    SplitNoSeparator("a", '.');
    SplitNoSeparator("b", '.');
    SplitConcat("a", "b", '.');
    assert "a.b" == "a" + ['.'] + "b";
    assert Split("a.b", '.') == ["a", "b"];
  }

  /** `$inc` on a numeric field (0 when missing) with a numeric operand stores the sum at the key. */
  lemma IncStoresSum(doc: Doc, key: string, delta: Value, n: int, d: int)
    requires Container(doc, key).Some? && Container(doc, key).value.VMap?
    requires AsInt(Get(Container(doc, key).value.fields, LastField(key), VInt(0))) == Some(n)
    requires AsInt(delta) == Some(d)
    ensures ApplyEdit(doc, Inc, key, delta).Success?
    ensures Lookup(VMap(ApplyEdit(doc, Inc, key, delta).value), Split(key, '.')) == Some(VInt(n + d))
  {
    var f := Container(doc, key).value.fields;
    var g := f[LastField(key) := VInt(n + d)];
    assert Leaf(VMap(f), LastField(key), Inc, delta) == Success(VMap(g));
    ApplyEditAtContainer(doc, Inc, key, delta);
    LookupInContainer(ApplyEdit(doc, Inc, key, delta).value, key, g);
  }

  /** A non-numeric field or operand makes `$inc` fail with an error on that key. */
  lemma IncRejects(doc: Doc, key: string, delta: Value)
    requires Container(doc, key).Some? && Container(doc, key).value.VMap?
    ensures var n := AsInt(Get(Container(doc, key).value.fields, LastField(key), VInt(0)));
      && (n.None? ==> ApplyEdit(doc, Inc, key, delta) == Failure(ErrorUpdating(key, NonNumericField)))
      && (n.Some? && AsInt(delta).None? ==> ApplyEdit(doc, Inc, key, delta) == Failure(ErrorUpdating(key, OperandTypeError)))
  {
    ApplyEditAtContainer(doc, Inc, key, delta);
  }

  /** `$push` creates an empty list for a missing field, rejects a non-list field, and stores the pushed list. */
  lemma PushAtPath(doc: Doc, key: string, x: Value)
    requires Container(doc, key).Some? && Container(doc, key).value.VMap?
    ensures var arr := Get(Container(doc, key).value.fields, LastField(key), VList([]));
      && (!arr.VList? ==> ApplyEdit(doc, Push, key, x) == Failure(ErrorUpdating(key, NonArrayField)))
      && (arr.VList? && Pushed(arr.items, x).None? ==>
            ApplyEdit(doc, Push, key, x) == Failure(ErrorUpdating(key, OperandTypeError)))
      && (arr.VList? && Pushed(arr.items, x).Some? ==>
            ApplyEdit(doc, Push, key, x).Success? &&
            Lookup(VMap(ApplyEdit(doc, Push, key, x).value), Split(key, '.')) == Some(VList(Pushed(arr.items, x).value)))
  {
    var f := Container(doc, key).value.fields;
    ApplyEditAtContainer(doc, Push, key, x);
    var arr := Get(f, LastField(key), VList([]));
    if arr.VList? && Pushed(arr.items, x).Some? {
      var g := f[LastField(key) := VList(Pushed(arr.items, x).value)];
      assert Leaf(VMap(f), LastField(key), Push, x) == Success(VMap(g));
      LookupInContainer(ApplyEdit(doc, Push, key, x).value, key, g);
    }
  }

  /** Without `$each`, `$push` appends the operand itself, a dict operand included. */
  lemma PushAppendsOne(arr: seq<Value>, x: Value)
    requires !(x.VMap? && "$each" in x.fields)
    ensures Pushed(arr, x) == Some(arr + [x])
  {
  }

  /** With a list under `$each`, `$push` extends by it and then keeps `extended[$slice:]`. */
  lemma PushEachThenSlice(arr: seq<Value>, each: seq<Value>, s: int)
    ensures Pushed(arr, VMap(map["$each" := VList(each), "$slice" := VInt(s)])) == Some(PySliceFrom(arr + each, s))
    ensures Pushed(arr, VMap(map["$each" := VList(each)])) == Some(arr + each)
  {
  }

  /**
   * `$slice` is a Python slice start, not MongoDB's count: pushing 1..5 into an
   * empty list with `$slice: 3` keeps [4, 5], and `$slice: -3` keeps [3, 4, 5].
   */
  lemma SliceIsAStartIndex()
    ensures Pushed([], VMap(map["$each" := VList([VInt(1), VInt(2), VInt(3), VInt(4), VInt(5)]), "$slice" := VInt(3)]))
      == Some([VInt(4), VInt(5)])
    ensures Pushed([], VMap(map["$each" := VList([VInt(1), VInt(2), VInt(3), VInt(4), VInt(5)]), "$slice" := VInt(-3)]))
      == Some([VInt(3), VInt(4), VInt(5)])
  {
    var xs := [VInt(1), VInt(2), VInt(3), VInt(4), VInt(5)];
    PushEachThenSlice([], xs, 3);
    PushEachThenSlice([], xs, -3);
    assert [] + xs == xs;
    assert PySliceFrom(xs, 3) == xs[3..] == [VInt(4), VInt(5)];
    assert PySliceFrom(xs, -3) == xs[2..] == [VInt(3), VInt(4), VInt(5)];
  }

  /**
   * `$pull` leaves a missing field alone (the container is unchanged), rejects
   * a non-list field, and otherwise keeps only the items equal to none of the
   * values: the operand itself, or the list under `$in` of a dict operand.
   */
  lemma PullAtPath(doc: Doc, key: string, x: Value)
    requires Container(doc, key).Some? && Container(doc, key).value.VMap?
    ensures var f := Container(doc, key).value.fields;
      && (LastField(key) !in f ==>
            ApplyEdit(doc, Pull, key, x).Success? &&
            Container(ApplyEdit(doc, Pull, key, x).value, key) == Container(doc, key))
      && (LastField(key) in f && !f[LastField(key)].VList? ==>
            ApplyEdit(doc, Pull, key, x) == Failure(ErrorUpdating(key, NonArrayField)))
      && (LastField(key) in f && f[LastField(key)].VList? && !x.VMap? ==>
            ApplyEdit(doc, Pull, key, x).Success? &&
            Lookup(VMap(ApplyEdit(doc, Pull, key, x).value), Split(key, '.')) ==
              Some(VList(Without(f[LastField(key)].items, [x]))))
      && (LastField(key) in f && f[LastField(key)].VList? && x.VMap? && "$in" in x.fields && x.fields["$in"].VList? ==>
            ApplyEdit(doc, Pull, key, x).Success? &&
            Lookup(VMap(ApplyEdit(doc, Pull, key, x).value), Split(key, '.')) ==
              Some(VList(Without(f[LastField(key)].items, x.fields["$in"].items))))
  {
    var f := Container(doc, key).value.fields;
    var field := LastField(key);
    ApplyEditAtContainer(doc, Pull, key, x);
    PullLeaf(VMap(f), field, x);
    if field in f && f[field].VList? {
      if !x.VMap? {
        PulledLookup(doc, key, x, Without(f[field].items, [x]));
      } else if "$in" in x.fields && x.fields["$in"].VList? {
        PulledLookup(doc, key, x, Without(f[field].items, x.fields["$in"].items));
      }
    }
  }

  /** When `$pull` leaves `kept` in the container, `kept` is what the key reads afterwards. */
  lemma PulledLookup(doc: Doc, key: string, x: Value, kept: seq<Value>)
    requires Container(doc, key).Some? && Container(doc, key).value.VMap?
    requires var f := Container(doc, key).value.fields;
      Leaf(VMap(f), LastField(key), Pull, x) == Success(VMap(f[LastField(key) := VList(kept)]))
    ensures ApplyEdit(doc, Pull, key, x).Success?
    ensures Lookup(VMap(ApplyEdit(doc, Pull, key, x).value), Split(key, '.')) == Some(VList(kept))
  {
    var g := Container(doc, key).value.fields[LastField(key) := VList(kept)];
    ApplyEditAtContainer(doc, Pull, key, x);
    LookupInContainer(ApplyEdit(doc, Pull, key, x).value, key, g);
  }

  /** `$pull` on the container the path reached. */
  lemma PullLeaf(c: Value, field: string, x: Value)
    requires c.VMap?
    ensures field !in c.fields ==> Leaf(c, field, Pull, x) == Success(c)
    ensures field in c.fields && !c.fields[field].VList? ==> Leaf(c, field, Pull, x) == Failure(NonArrayField)
    ensures field in c.fields && c.fields[field].VList? && !x.VMap? ==>
      Leaf(c, field, Pull, x) == Success(VMap(c.fields[field := VList(Without(c.fields[field].items, [x]))]))
    ensures field in c.fields && c.fields[field].VList? && x.VMap? && "$in" in x.fields && x.fields["$in"].VList? ==>
      Leaf(c, field, Pull, x) ==
        Success(VMap(c.fields[field := VList(Without(c.fields[field].items, x.fields["$in"].items))]))
  {
    assert Membership(VStr(field), c) == Some(field in c.fields);
    if field in c.fields && c.fields[field].VList? {
      if !x.VMap? {
        RetainList(c.fields[field].items, [x]);
      } else if "$in" in x.fields && x.fields["$in"].VList? {
        RetainList(c.fields[field].items, x.fields["$in"].items);
      }
    }
  }

  lemma {:induction false} WithoutAppend(xs: seq<Value>, ys: seq<Value>, vs: seq<Value>)
    ensures Without(xs + ys, vs) == Without(xs, vs) + Without(ys, vs)
  {
    if xs == [] {
      assert xs + ys == ys;
    } else {
      assert (xs + ys)[0] == xs[0];
      assert (xs + ys)[1..] == xs[1..] + ys;
      WithoutAppend(xs[1..], ys, vs);
    }
  }

  /** `$pull` of a plain value from a list field keeps the items unequal to it. */
  lemma PullOneAtPath(doc: Doc, key: string, x: Value, items: seq<Value>)
    requires !x.VMap?
    requires Container(doc, key).Some? && Container(doc, key).value.VMap?
    requires LastField(key) in Container(doc, key).value.fields
    requires Container(doc, key).value.fields[LastField(key)] == VList(items)
    ensures ApplyEdit(doc, Pull, key, x).Success?
    ensures Container(ApplyEdit(doc, Pull, key, x).value, key) ==
      Some(VMap(Container(doc, key).value.fields[LastField(key) := VList(Without(items, [x]))]))
  {
    ApplyEditAtContainer(doc, Pull, key, x);
    PullLeaf(Container(doc, key).value, LastField(key), x);
  }

  /** `$push` of a plain value onto a list field (or a missing one) appends it. */
  lemma PushOneAtPath(doc: Doc, key: string, x: Value, items: seq<Value>)
    requires !x.VMap?
    requires Container(doc, key).Some? && Container(doc, key).value.VMap?
    requires Get(Container(doc, key).value.fields, LastField(key), VList([])) == VList(items)
    ensures ApplyEdit(doc, Push, key, x).Success?
    ensures Container(ApplyEdit(doc, Push, key, x).value, key) ==
      Some(VMap(Container(doc, key).value.fields[LastField(key) := VList(items + [x])]))
  {
    ApplyEditAtContainer(doc, Push, key, x);
  }

  /** The value at a key is the last field of the container the key leads to. */
  lemma LookupInContainer(doc: Doc, key: string, f: map<string, Value>)
    requires Container(doc, key) == Some(VMap(f))
    ensures Lookup(VMap(doc), Split(key, '.')) == if LastField(key) in f then Some(f[LastField(key)]) else None
  {
  }

  /** A value pushed and then pulled is gone, together with every earlier copy of it. */
  lemma PushThenPullRemoves(doc: Doc, key: string, x: Value)
    requires !x.VMap?
    requires Container(doc, key).Some? && Container(doc, key).value.VMap?
    requires Get(Container(doc, key).value.fields, LastField(key), VList([])).VList?
    ensures var pushed := ApplyEdit(doc, Push, key, x);
      && pushed.Success?
      && ApplyEdit(pushed.value, Pull, key, x).Success?
      && Lookup(VMap(ApplyEdit(pushed.value, Pull, key, x).value), Split(key, '.')) ==
           Some(VList(Without(Get(Container(doc, key).value.fields, LastField(key), VList([])).items, [x])))
  {
    var f := Container(doc, key).value.fields;
    var arr := Get(f, LastField(key), VList([])).items;
    PushOneAtPath(doc, key, x, arr);
    var pushed := ApplyEdit(doc, Push, key, x).value;
    var g := f[LastField(key) := VList(arr + [x])];
    PullOneAtPath(pushed, key, x, arr + [x]);
    var pulled := ApplyEdit(pushed, Pull, key, x).value;
    WithoutAppend(arr, [x], [x]);
    PyEqReflexive(x);
    assert PyIn(x, [x]);
    assert Without([x], [x]) == [];
    assert Without(arr + [x], [x]) == Without(arr, [x]);
    LookupInContainer(pulled, key, g[LastField(key) := VList(Without(arr, [x]))]);
  }

  /** An unknown operator name rejects the update before any edit is attempted. */
  lemma UnknownOperatorRejected(doc: Doc, data: Update, i: nat)
    requires i < |data| && data[i].0 !in {"$set", "$unset", "$inc", "$push", "$pull"}
    ensures ApplyUpdate(doc, data) == Failure(InvalidOperation)
  {
    assert ParseOperator(data[i].0).None?;
  }
}
