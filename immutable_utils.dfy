/** lib/immutable-utils.ts and lib/v2/immutable-utils.ts: the copy-on-write
    write along a dotted path. Both files hold the same `setByPathArray`;
    `set` (the first file) and `setIn` (the second) apply it to the split
    path. Values are immutable here, so the input is never changed: every
    statement below about the result leaves the argument as it was. */
module ImmutableUtils {
  import opened Results
  import opened JsString
  import opened JsValue
  import opened Utils

  /** The updated copy of the parent: an array is copied and element
      `parseInt(tail)` written; anything else is spread into a new record
      with `tail` assigned. A parseInt that is NaN or negative names no
      element, and the copy equals the array. */
  function Update(parent: Value, tail: string, value: Value): Value
  {
    if parent.Arr? then
      match ParseInt(tail)
      case Some(n) => if n >= 0 then Arr(WriteIndex(parent.items, n, value)) else parent
      case None => parent
    else Obj(Put(SpreadFields(parent), tail, value))
  }

  /** `setByPathArray`: build the updated parent, then write it into its own
      parent by recursing on the head path, up to the root. */
  function SetByPathArray(obj: Value, pathArray: seq<string>, value: Value): Value
    decreases |pathArray|
  {
    if pathArray == [] || pathArray[|pathArray| - 1] == "" then obj
    else
      var head := pathArray[..|pathArray| - 1];
      var tail := pathArray[|pathArray| - 1];
      var updated := Update(GetByPathArray(obj, head), tail, value);
      if head == [] then updated else SetByPathArray(obj, head, updated)
  }

  /** `setIn(object, path, value)` (and `set` of lib/immutable-utils.ts). */
  function SetIn(obj: Value, path: string, value: Value): Value
  {
    SetByPathArray(obj, PathToArray(path), value)
  }

  // ---------------------------------------------------------------------
  // One level

  /** An array parent is copied with element n replaced: same length, every
      other element kept. */
  lemma UpdateArray(items: seq<Value>, tail: string, n: nat, value: Value)
    requires ParseInt(tail) == Some(n as int) && n < |items|
    ensures Update(Arr(items), tail, value).Arr?
    ensures var r := Update(Arr(items), tail, value).items;
      |r| == |items| && r[n] == value &&
      forall j :: 0 <= j < |items| && j != n ==> r[j] == items[j]
  {
  }

  /** A record parent is shallow-copied with `tail` replaced or added: the
      key reads the value, every other key reads as before, and no other key
      appears. */
  lemma UpdateRecord(fs: Fields, tail: string, value: Value, other: string)
    ensures Update(Obj(fs), tail, value).Obj?
    ensures Lookup(Update(Obj(fs), tail, value).fields, tail) == value
    ensures other != tail ==> Lookup(Update(Obj(fs), tail, value).fields, other) == Lookup(fs, other)
    ensures HasKey(Update(Obj(fs), tail, value).fields, other) <==> HasKey(fs, other) || other == tail
  {
    LookupPut(fs, tail, value, other);
    PutKeys(fs, tail, value, other);
  }

  /** Fields keyed "0", "1", ... read like an array. */
  lemma IndexedLookup(fs: Fields, k: string)
    requires forall i :: 0 <= i < |fs| ==> fs[i].0 == NatToString(i)
    ensures Lookup(fs, k) ==
      if ParseIndex(k).Some? && ParseIndex(k).value < |fs| then fs[ParseIndex(k).value].1 else Undefined
  {
    IndexedDistinct(fs, 0);
    if ParseIndex(k).Some? && ParseIndex(k).value < |fs| {
      CanonicalIndexIsNatToString(k);
      LookupAt(fs, ParseIndex(k).value);
    } else {
      if HasKey(fs, k) {
        var i := KeyPosition(fs, k);
        NatToStringIsIndex(i);
      }
      LookupAbsent(fs, k);
    }
  }

  lemma {:induction false} IndexedDistinct(fs: Fields, base: nat)
    requires forall i :: 0 <= i < |fs| ==> fs[i].0 == NatToString(base + i)
    ensures DistinctKeys(fs)
    ensures forall k :: HasKey(fs, k) ==> ParseIndex(k).Some? && ParseIndex(k).value >= base
    decreases |fs|
  {
    if fs != [] {
      IndexedDistinct(fs[1..], base + 1);
      NatToStringIsIndex(base);
      forall k | HasKey(fs, k)
        ensures ParseIndex(k).Some? && ParseIndex(k).value >= base
      {
        if k == fs[0].0 {
        } else {
          assert HasKey(fs[1..], k);
        }
      }
    }
  }

  /** Spreading a primitive string gives its characters under index keys. */
  lemma SpreadStringLookup(s: string, k: string)
    requires k != "length"
    ensures Lookup(SpreadFields(Prim(Str(s))), k) == Prop(Prim(Str(s)), k)
  {
    IndexedLookup(SpreadFields(Prim(Str(s))), k);
  }

  /** After updating, the written key reads the value (on an array, when the
      key is a canonical index); every other key except "length" reads as
      before (on an array, when the written key is a canonical index). */
  lemma UpdateReads(parent: Value, tail: string, value: Value, other: string)
    requires parent.Arr? ==> IsCanonicalIndex(tail)
    ensures Prop(Update(parent, tail, value), tail) == value
    ensures other != tail && other != "length" ==>
      Prop(Update(parent, tail, value), other) == Prop(parent, other)
  {
    if parent.Arr? {
      ParseIntOfIndex(tail);
      if ParseIndex(other).Some? && other != tail && ParseIndex(other) == ParseIndex(tail) {
        ParseIndexInjective(other, tail);
      }
    } else {
      LookupPut(SpreadFields(parent), tail, value, other);
      if parent.Prim? && parent.p.Str? && other != "length" {
        SpreadStringLookup(parent.p.s, other);
      }
    }
  }

  // ---------------------------------------------------------------------
  // Whole paths

  /** A path the copy-on-write set can write and then read back: no empty
      segment, and a canonical index wherever the node is an array. */
  predicate Addressable(obj: Value, p: seq<string>)
    decreases |p|
  {
    p != [] && p[0] != "" && (obj.Arr? ==> IsCanonicalIndex(p[0])) &&
    (|p| > 1 ==> Addressable(Prop(obj, p[0]), p[1..]))
  }

  /** An empty segment anywhere makes the set return its input unchanged. */
  lemma {:induction false} SetEmptySegment(obj: Value, p: seq<string>, value: Value)
    requires "" in p
    ensures SetByPathArray(obj, p, value) == obj
    decreases |p|
  {
    if p[|p| - 1] != "" {
      var head := p[..|p| - 1];
      assert "" in head by {
        var i :| 0 <= i < |p| && p[i] == "";
        assert head[i] == "";
      }
      SetEmptySegment(obj, head, Update(GetByPathArray(obj, head), p[|p| - 1], value));
    }
  }

  /** The path "" or any path ending in "." gives the object back. */
  lemma SetInEmptyTail(obj: Value, path: string, value: Value)
    requires PathToArray(path)[|PathToArray(path)| - 1] == ""
    ensures SetIn(obj, path, value) == obj
  {
  }

  /** The bottom-up recursion seen top-down: writing along k + r updates
      child k of the root with the write along r inside that child. */
  lemma {:induction false} SetCons(obj: Value, k: string, r: seq<string>, value: Value)
    requires k != "" && r != [] && "" !in r
    ensures SetByPathArray(obj, [k] + r, value) ==
      Update(obj, k, SetByPathArray(Prop(obj, k), r, value))
    decreases |r|
  {
    var p := [k] + r;
    var tail := r[|r| - 1];
    var init := r[..|r| - 1];
    assert tail in r;
    assert p[|p| - 1] == tail && p[..|p| - 1] == [k] + init;
    assert r[..|r| - 1] == init;
    GetStep(obj, k, init);
    var updated := Update(GetByPathArray(Prop(obj, k), init), tail, value);
    assert SetByPathArray(obj, p, value) == SetByPathArray(obj, [k] + init, updated);
    if init == [] {
      assert [k] + init == [k];
      assert SetByPathArray(Prop(obj, k), r, value) == updated;
    } else {
      assert SetByPathArray(Prop(obj, k), r, value) == SetByPathArray(Prop(obj, k), init, updated);
      assert forall x :: x in init ==> x in r;
      SetCons(obj, k, init, updated);
    }
  }

  /** A single-segment path returns the updated copy of the root itself. */
  lemma SetSingle(obj: Value, k: string, value: Value)
    requires k != ""
    ensures SetByPathArray(obj, [k], value) == Update(obj, k, value)
  {
  }

  /** After a set, reading the path gives the value written. */
  lemma {:induction false} GetAfterSet(obj: Value, p: seq<string>, value: Value)
    requires Addressable(obj, p)
    ensures GetByPathArray(SetByPathArray(obj, p, value), p) == value
    decreases |p|
  {
    var k := p[0];
    if |p| == 1 {
      UpdateReads(obj, k, value, k);
    } else {
      var r := p[1..];
      assert p == [k] + r;
      AddressableNoEmpty(Prop(obj, k), r);
      SetCons(obj, k, r, value);
      var c := SetByPathArray(Prop(obj, k), r, value);
      UpdateReads(obj, k, c, k);
      GetStep(Update(obj, k, c), k, r);
      GetAfterSet(Prop(obj, k), r, value);
    }
  }

  lemma {:induction false} AddressableNoEmpty(obj: Value, p: seq<string>)
    requires Addressable(obj, p)
    ensures "" !in p
    decreases |p|
  {
    if |p| > 1 {
      AddressableNoEmpty(Prop(obj, p[0]), p[1..]);
      assert p == [p[0]] + p[1..];
    }
  }

  /** A set leaves every path that parts ways with it (a sibling key,
      another array element) reading as before. */
  lemma {:induction false} SetFrame(obj: Value, p: seq<string>, value: Value, q: seq<string>)
    requires Addressable(obj, p) && Diverges(p, q)
    ensures GetByPathArray(SetByPathArray(obj, p, value), q) == GetByPathArray(obj, q)
    decreases |p|
  {
    var k := p[0];
    assert q == [q[0]] + q[1..];
    if |p| == 1 {
      UpdateReads(obj, k, value, q[0]);
      GetStep(Update(obj, k, value), q[0], q[1..]);
      GetStep(obj, q[0], q[1..]);
    } else {
      var r := p[1..];
      assert p == [k] + r;
      AddressableNoEmpty(Prop(obj, k), r);
      SetCons(obj, k, r, value);
      var c := SetByPathArray(Prop(obj, k), r, value);
      UpdateReads(obj, k, c, q[0]);
      GetStep(Update(obj, k, c), q[0], q[1..]);
      GetStep(obj, q[0], q[1..]);
      if k == q[0] {
        SetFrame(Prop(obj, k), r, value, q[1..]);
      }
    }
  }

  /** A missing intermediate is created as a fresh record holding only the
      new key: `undefined` and `null` spread into nothing. */
  lemma SetMaterialisesMissing(obj: Value, h: seq<string>, t: string, value: Value)
    requires Addressable(obj, h) && t != ""
    requires IsNullish(GetByPathArray(obj, h))
    ensures GetByPathArray(SetByPathArray(obj, h + [t], value), h) == Obj([(t, value)])
  {
    var p := h + [t];
    assert p[..|p| - 1] == h;
    GetAfterSet(obj, h, Update(GetByPathArray(obj, h), t, value));
  }

  /** The string-level promise of `set` and `setIn`: reading the path back
      gives the value, and paths that part ways read as before. */
  lemma SetInReadsBack(obj: Value, path: string, value: Value, q: string)
    requires Addressable(obj, PathToArray(path))
    ensures Get(SetIn(obj, path, value), path) == value
    ensures Diverges(PathToArray(path), PathToArray(q)) ==> Get(SetIn(obj, path, value), q) == Get(obj, q)
  {
    GetAfterSet(obj, PathToArray(path), value);
    if Diverges(PathToArray(path), PathToArray(q)) {
      SetFrame(obj, PathToArray(path), value, PathToArray(q));
    }
  }

  /** The `set` examples: one record, array and mixed value reused for every
      call, each call giving its own result. */
  lemma SetInExamplesRecord(path: string)
    requires path == "a.b"
    ensures var obj := Obj([("a", Obj([("b", Obj([("c", Prim(Str("TEST")))]))]))]);
      SetIn(obj, "a", Prim(Str("1"))) == Obj([("a", Prim(Str("1")))]) &&
      SetIn(obj, path, Prim(Str("1"))) == Obj([("a", Obj([("b", Prim(Str("1")))]))])
  {
    var one := Prim(Str("1"));
    var b := Obj([("b", Obj([("c", Prim(Str("TEST")))]))]);
    var obj := Obj([("a", b)]);
    SplitNoDotIsSingleton("a");
    SetSingle(obj, "a", one);
    assert path == "a" + "." + "b";
    PathToArrayUnique(path, ["a", "b"]);
    calc {
      SetIn(obj, path, one);
      { assert ["a", "b"] == ["a"] + ["b"]; }
      SetByPathArray(obj, ["a"] + ["b"], one);
      { SetCons(obj, "a", ["b"], one); }
      Update(obj, "a", SetByPathArray(b, ["b"], one));
      { SetSingle(b, "b", one); }
      Update(obj, "a", Update(b, "b", one));
      { UpdateSingleField("b", Obj([("c", Prim(Str("TEST")))]), one); }
      Update(obj, "a", Obj([("b", one)]));
      { UpdateSingleField("a", b, Obj([("b", one)])); }
      Obj([("a", Obj([("b", one)]))]);
    }
  }

  /** Assigning the only key of a one-key record replaces its value. */
  lemma UpdateSingleField(k: string, before: Value, value: Value)
    ensures Update(Obj([(k, before)]), k, value) == Obj([(k, value)])
  {
    assert [(k, before)][1..] == [];
  }

  lemma SetInExamplesArray()
    ensures var arr := Arr([Prim(Str("a")), Prim(Str("b")), Prim(Str("c"))]);
      SetIn(arr, "0", Prim(Str("A"))) == Arr([Prim(Str("A")), Prim(Str("b")), Prim(Str("c"))]) &&
      SetIn(arr, "1", Prim(Str("B"))) == Arr([Prim(Str("a")), Prim(Str("B")), Prim(Str("c"))])
  {
    var items := [Prim(Str("a")), Prim(Str("b")), Prim(Str("c"))];
    SetIndexExample(items, "0", 0, Prim(Str("A")));
    SetIndexExample(items, "1", 1, Prim(Str("B")));
    assert items[0 := Prim(Str("A"))] == [Prim(Str("A")), Prim(Str("b")), Prim(Str("c"))];
    assert items[1 := Prim(Str("B"))] == [Prim(Str("a")), Prim(Str("B")), Prim(Str("c"))];
  }

  /** Setting an in-range index key on an array replaces that element. */
  lemma SetIndexExample(items: seq<Value>, key: string, i: nat, value: Value)
    requires key == NatToString(i) && i < |items|
    ensures SetIn(Arr(items), key, value) == Arr(items[i := value])
  {
    NatToStringIsIndex(i);
    SplitNoDotIsSingleton(key);
    ParseIntOfIndex(key);
    SetSingle(Arr(items), key, value);
  }

  lemma SetInExamplesMixed(path: string)
    requires path == "a.b.1.c"
    ensures SetIn(MixedExample(), path, Prim(Num(10))) ==
      Obj([("a", Obj([("b", Arr([Obj([("c", Prim(Num(1)))]), Obj([("c", Prim(Num(10)))])]))]))])
  {
    var ten := Prim(Num(10));
    var a1 := Obj([("b", Arr([Obj([("c", Prim(Num(1)))]), Obj([("c", ten)])]))]);
    calc {
      SetIn(MixedExample(), path, ten);
      { assert path == "a" + "." + "b" + "." + "1" + "." + "c"; DottedPath4("a", "b", "1", "c"); }
      SetByPathArray(MixedExample(), ["a", "b", "1", "c"], ten);
      { assert ["a", "b", "1", "c"] == ["a"] + ["b", "1", "c"]; }
      SetByPathArray(MixedExample(), ["a"] + ["b", "1", "c"], ten);
      { SetCons(MixedExample(), "a", ["b", "1", "c"], ten); }
      Update(MixedExample(), "a", SetByPathArray(Prop(MixedExample(), "a"), ["b", "1", "c"], ten));
      { SetInExamplesMixedRecord(); }
      Update(MixedExample(), "a", a1);
    }
  }

  lemma SetInExamplesMixedRecord()
    ensures SetByPathArray(Obj([("b", Arr([Obj([("c", Prim(Num(1)))]), Obj([("c", Prim(Num(2)))])]))]), ["b", "1", "c"], Prim(Num(10))) ==
      Obj([("b", Arr([Obj([("c", Prim(Num(1)))]), Obj([("c", Prim(Num(10)))])]))])
  {
    var ten := Prim(Num(10));
    var a := Obj([("b", Arr([Obj([("c", Prim(Num(1)))]), Obj([("c", Prim(Num(2)))])]))]);
    var b := Arr([Obj([("c", Prim(Num(1)))]), Obj([("c", Prim(Num(2)))])]);
    var b1 := Arr([Obj([("c", Prim(Num(1)))]), Obj([("c", ten)])]);
    SetInExamplesMixedElement();
    SetCons(a, "b", ["1", "c"], ten);
    assert ["b"] + ["1", "c"] == ["b", "1", "c"];
    assert Prop(a, "b") == b;
    assert Update(a, "b", b1) == Obj([("b", b1)]);
  }

  lemma SetInExamplesMixedElement()
    ensures SetByPathArray(Arr([Obj([("c", Prim(Num(1)))]), Obj([("c", Prim(Num(2)))])]), ["1", "c"], Prim(Num(10))) ==
      Arr([Obj([("c", Prim(Num(1)))]), Obj([("c", Prim(Num(10)))])])
  {
    var ten := Prim(Num(10));
    var b := Arr([Obj([("c", Prim(Num(1)))]), Obj([("c", Prim(Num(2)))])]);
    assert ParseIndex("1") == Some(1);
    ParseIntOfIndex("1");
    SetSingle(Obj([("c", Prim(Num(2)))]), "c", ten);
    SetCons(b, "1", ["c"], ten);
    assert ["1"] + ["c"] == ["1", "c"];
    assert Prop(b, "1") == Obj([("c", Prim(Num(2)))]);
    assert Update(Obj([("c", Prim(Num(2)))]), "c", ten) == Obj([("c", ten)]);
    assert Update(b, "1", Obj([("c", ten)])) == Arr(b.items[1 := Obj([("c", ten)])]);
    assert b.items[1 := Obj([("c", ten)])] == [Obj([("c", Prim(Num(1)))]), Obj([("c", ten)])];
  }
}
