/** lib/utils.ts: reading along a dotted path, the in-place `set` as the
    form's draft updates use it (on the value tree; see ObjectHeap for the
    reference-level view), `pipe`, and `deleteKeysByPrefix`. */
module Utils {
  import opened Results
  import opened JsString
  import opened JsValue

  // ---------------------------------------------------------------------
  // Paths and reading

  /** `pathToArray`: the segments between the dots. The segments are the only
      dot-free list that joins back to the path. */
  function PathToArray(path: string): (r: seq<string>)
    ensures |r| >= 1 && AllNoDot(r) && Join(r) == path
  {
    SplitSegmentsHaveNoDot(path);
    JoinSplit(path);
    Split(path)
  }

  /** Any dot-free segment list that joins to the path is its split. */
  lemma PathToArrayUnique(path: string, segs: seq<string>)
    requires |segs| >= 1 && AllNoDot(segs) && Join(segs) == path
    ensures PathToArray(path) == segs
  {
    SplitJoin(segs);
  }

  /** `getByPathArray`: `res?.[prop]` folded over the segments. */
  function GetByPathArray(obj: Value, path: seq<string>): Value
    decreases |path|
  {
    if path == [] then obj else GetByPathArray(Prop(obj, path[0]), path[1..])
  }

  /** `get`: read along a dotted path. */
  function Get(obj: Value, path: string): Value
  {
    GetByPathArray(obj, PathToArray(path))
  }

  /** Reading along p + q is reading q from the node at p. */
  lemma {:induction false} GetByPathArrayAppend(obj: Value, p: seq<string>, q: seq<string>)
    ensures GetByPathArray(obj, p + q) == GetByPathArray(GetByPathArray(obj, p), q)
    decreases |p|
  {
    if p != [] {
      assert (p + q)[0] == p[0] && (p + q)[1..] == p[1..] + q;
      GetByPathArrayAppend(Prop(obj, p[0]), p[1..], q);
    } else {
      assert p + q == q;
    }
  }

  /** Once a read meets `undefined` or `null`, every longer read is
      `undefined`: a miss never fails. */
  lemma {:induction false} GetPastMiss(obj: Value, p: seq<string>, q: seq<string>)
    requires IsNullish(GetByPathArray(obj, p)) && q != []
    ensures GetByPathArray(obj, p + q) == Undefined
  {
    GetByPathArrayAppend(obj, p, q);
    var miss := GetByPathArray(obj, p);
    assert Prop(miss, q[0]) == Undefined;
    NothingBelowUndefined(q[1..]);
  }

  lemma {:induction false} NothingBelowUndefined(q: seq<string>)
    ensures GetByPathArray(Undefined, q) == Undefined
    decreases |q|
  {
    if q != [] {
      NothingBelowUndefined(q[1..]);
    }
  }

  /** An index past the end of an array reads `undefined`, and so does
      everything below it. */
  lemma GetPastEnd(items: seq<Value>, i: nat, q: seq<string>)
    requires i >= |items|
    ensures GetByPathArray(Arr(items), [NatToString(i)] + q) == Undefined
  {
    NatToStringIsIndex(i);
    assert ([NatToString(i)] + q)[1..] == q;
    NothingBelowUndefined(q);
  }

  /** Reading a record key or an in-range index descends into that child. */
  lemma GetStep(obj: Value, key: string, q: seq<string>)
    ensures GetByPathArray(obj, [key] + q) == GetByPathArray(Prop(obj, key), q)
  {
    assert ([key] + q)[1..] == q;
  }

  /** A primitive or `undefined` never leads to a record or an array. */
  lemma {:induction false} NoObjectBelowNonObject(obj: Value, p: seq<string>)
    requires !IsObject(obj)
    ensures !IsObject(GetByPathArray(obj, p))
    decreases |p|
  {
    if p != [] {
      PropOfNonObject(obj, p[0]);
      NoObjectBelowNonObject(Prop(obj, p[0]), p[1..]);
    }
  }

  /** The reads of the `get` examples on a nested record: the node at the
      path, intermediate or leaf. */
  lemma GetExamplesRecord(path: string)
    requires path == "a.b.c"
    ensures var obj := Obj([("a", Obj([("b", Obj([("c", Prim(Str("TEST")))]))]))]);
      Get(obj, "a") == Obj([("b", Obj([("c", Prim(Str("TEST")))]))]) &&
      Get(obj, path) == Prim(Str("TEST"))
  {
    var c := Obj([("c", Prim(Str("TEST")))]);
    var b := Obj([("b", c)]);
    var obj := Obj([("a", b)]);
    SplitNoDotIsSingleton("a");
    calc {
      Get(obj, path);
      { assert path == "a" + "." + "b" + "." + "c"; DottedPath3("a", "b", "c"); }
      GetByPathArray(obj, ["a", "b", "c"]);
      { GetStep(obj, "a", ["b", "c"]); }
      GetByPathArray(b, ["b", "c"]);
      { GetStep(b, "b", ["c"]); }
      GetByPathArray(c, ["c"]);
      { GetStep(c, "c", []); }
      Prim(Str("TEST"));
    }
  }

  /** The segments of a dotted path of three keys. */
  lemma DottedPath3(x: string, y: string, z: string)
    requires x != "" && y != "" && z != "" && NoDot(x) && NoDot(y) && NoDot(z)
    ensures PathToArray(x + "." + y + "." + z) == [x, y, z]
  {
    assert AllNoDot([x, y, z]);
    calc {
      Join([x, y, z]);
      x + "." + Join([y, z]);
      x + "." + (y + "." + Join([z]));
      x + "." + y + "." + z;
    }
    PathToArrayUnique(x + "." + y + "." + z, [x, y, z]);
  }

  /** The segments of a dotted path of four keys. */
  lemma DottedPath4(w: string, x: string, y: string, z: string)
    requires w != "" && x != "" && y != "" && z != ""
    requires NoDot(w) && NoDot(x) && NoDot(y) && NoDot(z)
    ensures PathToArray(w + "." + x + "." + y + "." + z) == [w, x, y, z]
  {
    assert AllNoDot([w, x, y, z]);
    calc {
      Join([w, x, y, z]);
      w + "." + Join([x, y, z]);
      w + "." + (x + "." + Join([y, z]));
      w + "." + (x + "." + (y + "." + Join([z])));
      w + "." + x + "." + y + "." + z;
    }
    PathToArrayUnique(w + "." + x + "." + y + "." + z, [w, x, y, z]);
  }

  /** On an array: an index reads its element, one past the end `undefined`. */
  lemma GetExamplesArray()
    ensures var arr := Arr([Prim(Str("a")), Prim(Str("b")), Prim(Str("c"))]);
      Get(arr, "1") == Prim(Str("b")) && Get(arr, "3") == Undefined
  {
    SplitNoDotIsSingleton("1");
    SplitNoDotIsSingleton("3");
    assert ParseIndex("1") == Some(1) && ParseIndex("3") == Some(3);
  }

  function MixedExample(): Value
  {
    Obj([("a", Obj([("b", Arr([Obj([("c", Prim(Num(1)))]), Obj([("c", Prim(Num(2)))])]))]))])
  }

  /** On records inside an array: a path through an element reads its field. */
  lemma GetExamplesMixed(path: string)
    requires path == "a.b.1.c"
    ensures Get(MixedExample(), path) == Prim(Num(2))
  {
    var e := Obj([("c", Prim(Num(2)))]);
    var b := Arr([Obj([("c", Prim(Num(1)))]), e]);
    var a := Obj([("b", b)]);
    assert ParseIndex("1") == Some(1);
    calc {
      Get(MixedExample(), path);
      { assert path == "a" + "." + "b" + "." + "1" + "." + "c"; DottedPath4("a", "b", "1", "c"); }
      GetByPathArray(MixedExample(), ["a", "b", "1", "c"]);
      { GetStep(MixedExample(), "a", ["b", "1", "c"]); }
      GetByPathArray(a, ["b", "1", "c"]);
      { GetStep(a, "b", ["1", "c"]); }
      GetByPathArray(b, ["1", "c"]);
      { GetStep(b, "1", ["c"]); }
      GetByPathArray(e, ["c"]);
      { GetStep(e, "c", []); }
      Prim(Num(2));
    }
  }

  /** A missing element reads `undefined` below it instead of failing. */
  lemma GetExamplesMissingElement(path: string)
    requires path == "a.b.2.c"
    ensures Get(MixedExample(), path) == Undefined
  {
    var b := Arr([Obj([("c", Prim(Num(1)))]), Obj([("c", Prim(Num(2)))])]);
    var a := Obj([("b", b)]);
    assert NatToString(2) == "2";
    calc {
      Get(MixedExample(), path);
      { assert path == "a" + "." + "b" + "." + "2" + "." + "c"; DottedPath4("a", "b", "2", "c"); }
      GetByPathArray(MixedExample(), ["a", "b", "2", "c"]);
      { GetStep(MixedExample(), "a", ["b", "2", "c"]); }
      GetByPathArray(a, ["b", "2", "c"]);
      { GetStep(a, "b", ["2", "c"]); }
      GetByPathArray(b, ["2", "c"]);
      { GetPastEnd(b.items, 2, ["c"]); }
      Undefined;
    }
  }

  // ---------------------------------------------------------------------
  // In-place set, on the value tree

  /** `node` with the record or array at `path` replaced by `newNode`: every
      container on the way is updated in place, which on the tree means each
      ancestor gets its child replaced. */
  function ReplaceAt(node: Value, path: seq<string>, newNode: Value): Value
    requires IsObject(GetByPathArray(node, path))
    decreases |path|
  {
    if path == [] then newNode
    else
      assert IsObject(node) by {
        if !IsObject(node) { NoObjectBelowNonObject(node, path); }
      }
      AssignProp(node, path[0], ReplaceAt(Prop(node, path[0]), path[1..], newNode))
  }

  /** `set(obj, path, value)`: assign the last segment on the container
      the other segments lead to. An empty last segment assigns nothing;
      assigning on `undefined`, `null` or another primitive throws. The
      source returns the root it was given; on the tree that root is the
      updated one. */
  function Set(obj: Value, path: string, value: Value): Result<Value>
  {
    var segs := PathToArray(path);
    var head := segs[..|segs| - 1];
    var tail := segs[|segs| - 1];
    var target := if |head| > 0 then GetByPathArray(obj, head) else obj;
    if tail == "" then Ok(obj)
    else if IsObject(target) then Ok(ReplaceAt(obj, head, AssignProp(target, tail, value)))
    else Err(TypeError)
  }

  /** Segment lists p and q part ways at some position, and q's segment there
      is not "length" (which an array write past the end changes). */
  predicate Diverges(p: seq<string>, q: seq<string>)
    decreases |p|
  {
    p != [] && q != [] &&
    if p[0] == q[0] then Diverges(p[1..], q[1..]) else q[0] != "length"
  }

  /** Reading the path just replaced gives the new node. */
  lemma {:induction false} ReplaceAtReads(node: Value, path: seq<string>, newNode: Value)
    requires IsObject(GetByPathArray(node, path))
    ensures GetByPathArray(ReplaceAt(node, path, newNode), path) == newNode
    decreases |path|
  {
    if path != [] {
      if !IsObject(node) { NoObjectBelowNonObject(node, path); }
      var child := Prop(node, path[0]);
      if node.Arr? {
        if !IsObject(child) { NoObjectBelowNonObject(child, path[1..]); }
        PropOfArrayObject(node, path[0]);
      }
      AssignPropRead(node, path[0], ReplaceAt(child, path[1..], newNode), path[0]);
      ReplaceAtReads(child, path[1..], newNode);
    }
  }

  /** Paths that part ways with the replaced one read as before. */
  lemma {:induction false} ReplaceAtFrame(node: Value, path: seq<string>, newNode: Value, q: seq<string>)
    requires IsObject(GetByPathArray(node, path)) && Diverges(path, q)
    ensures GetByPathArray(ReplaceAt(node, path, newNode), q) == GetByPathArray(node, q)
    decreases |path|
  {
    if !IsObject(node) { NoObjectBelowNonObject(node, path); }
    var child := Prop(node, path[0]);
    var updated := ReplaceAt(child, path[1..], newNode);
    AssignPropRead(node, path[0], updated, q[0]);
    if path[0] == q[0] {
      if node.Arr? {
        if !IsObject(child) { NoObjectBelowNonObject(child, path[1..]); }
        PropOfArrayObject(node, path[0]);
      }
      ReplaceAtFrame(child, path[1..], newNode, q[1..]);
    }
  }

  lemma {:induction false} DivergesSnoc(h: seq<string>, t: string, q: seq<string>)
    requires Diverges(h + [t], q)
    ensures Diverges(h, q) ||
      (|q| > |h| && q[..|h|] == h && q[|h|] != t && q[|h|] != "length")
    decreases |h|
  {
    if h != [] {
      assert (h + [t])[1..] == h[1..] + [t];
      if h[0] == q[0] {
        DivergesSnoc(h[1..], t, q[1..]);
        if !Diverges(h[1..], q[1..]) {
          assert q[..|h|] == [q[0]] + q[1..][..|h| - 1];
        }
      }
    }
  }

  /** A successful set reads back the value under the path, provided the last
      segment addresses a record key or an array index. */
  lemma SetReadsBack(obj: Value, path: string, value: Value)
    requires Set(obj, path, value).Ok?
    requires var segs := PathToArray(path);
      var target := GetByPathArray(obj, segs[..|segs| - 1]);
      segs[|segs| - 1] != "" && (target.Obj? || ParseIndex(segs[|segs| - 1]).Some?)
    ensures Get(Set(obj, path, value).value, path) == value
  {
    var segs := PathToArray(path);
    var head := segs[..|segs| - 1];
    var tail := segs[|segs| - 1];
    var target := GetByPathArray(obj, head);
    var r := ReplaceAt(obj, head, AssignProp(target, tail, value));
    ReplaceAtReads(obj, head, AssignProp(target, tail, value));
    AssignPropRead(target, tail, value, tail);
    assert segs == head + [tail];
    GetByPathArrayAppend(r, head, [tail]);
  }

  /** A set changes only the addressed slot: every path that parts ways with
      it (a sibling key, another array index) reads as before. */
  lemma SetChangesOnlySlot(obj: Value, path: string, value: Value, q: seq<string>)
    requires Set(obj, path, value).Ok?
    requires Diverges(PathToArray(path), q)
    ensures GetByPathArray(Set(obj, path, value).value, q) == GetByPathArray(obj, q)
  {
    var segs := PathToArray(path);
    var head := segs[..|segs| - 1];
    var tail := segs[|segs| - 1];
    assert segs == head + [tail];
    if tail != "" {
      assert (if |head| > 0 then GetByPathArray(obj, head) else obj) == GetByPathArray(obj, head);
      SlotFrame(obj, head, tail, value, q);
    }
  }

  /** Assigning `tail` in the container at `head` leaves every diverging path. */
  lemma SlotFrame(obj: Value, head: seq<string>, tail: string, value: Value, q: seq<string>)
    requires IsObject(GetByPathArray(obj, head)) && Diverges(head + [tail], q)
    ensures var n := AssignProp(GetByPathArray(obj, head), tail, value);
      GetByPathArray(ReplaceAt(obj, head, n), q) == GetByPathArray(obj, q)
  {
    var n := AssignProp(GetByPathArray(obj, head), tail, value);
    DivergesSnoc(head, tail, q);
    if Diverges(head, q) {
      ReplaceAtFrame(obj, head, n, q);
    } else {
      var rest := q[|head|..];
      assert q == head + rest;
      SiblingOfSlot(obj, head, tail, value, rest);
    }
  }

  /** Below the container of the assigned slot, a different key reads as before. */
  lemma SiblingOfSlot(obj: Value, head: seq<string>, tail: string, value: Value, rest: seq<string>)
    requires IsObject(GetByPathArray(obj, head))
    requires rest != [] && rest[0] != tail && rest[0] != "length"
    ensures var n := AssignProp(GetByPathArray(obj, head), tail, value);
      GetByPathArray(ReplaceAt(obj, head, n), head + rest) == GetByPathArray(obj, head + rest)
  {
    var target := GetByPathArray(obj, head);
    var n := AssignProp(target, tail, value);
    var r := ReplaceAt(obj, head, n);
    ReplaceAtReads(obj, head, n);
    AssignPropRead(target, tail, value, rest[0]);
    calc {
      GetByPathArray(r, head + rest);
      { GetByPathArrayAppend(r, head, rest); }
      GetByPathArray(n, rest);
      { assert rest == [rest[0]] + rest[1..]; GetStep(n, rest[0], rest[1..]); }
      GetByPathArray(Prop(n, rest[0]), rest[1..]);
      GetByPathArray(Prop(target, rest[0]), rest[1..]);
      { assert rest == [rest[0]] + rest[1..]; GetStep(target, rest[0], rest[1..]); }
      GetByPathArray(target, rest);
      { GetByPathArrayAppend(obj, head, rest); }
      GetByPathArray(obj, head + rest);
    }
  }

  /** An empty last segment (the path "" or one ending in ".") changes nothing. */
  lemma SetEmptyTail(obj: Value, path: string, value: Value)
    requires PathToArray(path)[|PathToArray(path)| - 1] == ""
    ensures Set(obj, path, value) == Ok(obj)
  {
  }

  /** Setting through a missing intermediate throws, since it assigns into
      `undefined`: here the container path h meets `undefined` or `null`
      after its first i segments. */
  lemma SetThroughMissing(obj: Value, h: seq<string>, i: nat, t: string, value: Value)
    requires AllNoDot(h + [t]) && t != "" && 0 < i <= |h|
    requires IsNullish(GetByPathArray(obj, h[..i]))
    ensures Set(obj, Join(h + [t]), value) == Err(TypeError)
  {
    SplitJoin(h + [t]);
    assert (h + [t])[..|h|] == h;
    if i < |h| {
      assert h == h[..i] + h[i..];
      GetPastMiss(obj, h[..i], h[i..]);
    } else {
      assert h[..i] == h;
    }
  }

  // ---------------------------------------------------------------------
  // pipe

  /** `fns.reduce((v, f) => f(v), x)`. */
  function Apply<T>(fns: seq<T -> T>, x: T): T
    decreases |fns|
  {
    if fns == [] then x else Apply(fns[1..], fns[0](x))
  }

  /** `pipe(...fns)`. */
  function Pipe<T>(fns: seq<T -> T>): T -> T
  {
    x => Apply(fns, x)
  }

  /** A pipe applies its functions left to right: with none it is the
      identity, with one it is that function, and a pipe of f + g is g's
      pipe after f's. */
  lemma {:induction false} PipeLeftToRight<T>(f: seq<T -> T>, g: seq<T -> T>, x: T)
    ensures Pipe<T>([])(x) == x
    ensures |f| == 1 ==> Pipe(f)(x) == f[0](x)
    ensures Pipe(f + g)(x) == Pipe(g)(Pipe(f)(x))
    decreases |f|
  {
    if f != [] {
      assert (f + g)[1..] == f[1..] + g;
      PipeLeftToRight(f[1..], g, f[0](x));
    } else {
      assert f + g == g;
    }
  }

  // ---------------------------------------------------------------------
  // deleteKeysByPrefix

  /** A `Map` with string keys, updated in place. */
  class StringMap<V> {
    var entries: map<string, V>

    constructor (entries: map<string, V>)
      ensures this.entries == entries
    {
      this.entries := entries;
    }
  }

  /** `deleteKeysByPrefix`: walk the keys and delete each one that starts
      with the prefix. Deleting while iterating is safe in a JavaScript Map:
      every key present at the start is visited once. */
  method DeleteKeysByPrefix<V>(m: StringMap<V>, prefix: string)
    modifies m
    ensures forall k :: k in m.entries <==> k in old(m.entries) && !(prefix <= k)
    ensures forall k :: k in m.entries ==> m.entries[k] == old(m.entries)[k]
  {
    var keys := m.entries.Keys;
    while keys != {}
      invariant keys <= old(m.entries).Keys
      invariant forall k :: k in m.entries <==> k in old(m.entries) && (k in keys || !(prefix <= k))
      invariant forall k :: k in m.entries ==> m.entries[k] == old(m.entries)[k]
      decreases keys
    {
      var key :| key in keys;
      if prefix <= key {
        m.entries := m.entries - {key};
      }
      keys := keys - {key};
    }
  }
}
