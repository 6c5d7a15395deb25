/** lib/flattenRecordToMap.ts: a nested record as a map from dotted key to
    leaf. A record is descended into; an array contributes one entry per
    element under `key.index`, descending only into record elements; every
    other value is a leaf. The JavaScript Map is modelled by a Dafny `map`,
    which keeps the last value set for a key (its insertion order is not
    modelled). */
module FlattenRecordToMap {
  import opened JsString
  import opened JsValue
  import opened Utils

  /** `parentKey ? `${parentKey}.${key}` : key`. */
  function Under(parentKey: string, key: string): string
  {
    if parentKey != "" then parentKey + "." + key else key
  }

  // ---------------------------------------------------------------------
  // The result, as a function

  /** `flattenRecordToMap(record, parentKey)`. The source types its argument
      as a record; the only other value that reaches it is `null` (an array
      element), over which `for...in` visits nothing. */
  function Flatten(record: Value, parentKey: string): map<string, Value>
    decreases record, 1
  {
    if record.Obj? then FlattenFields(record, |record.fields|, parentKey) else map[]
  }

  /** The map after the loop has visited the first n keys. */
  function FlattenFields(record: Value, n: nat, parentKey: string): map<string, Value>
    requires record.Obj? && n <= |record.fields|
    decreases record, 0, n
  {
    if n == 0 then map[]
    else
      FlattenFields(record, n - 1, parentKey) +
      FlattenEntry(record.fields[n - 1].1, Under(parentKey, record.fields[n - 1].0))
  }

  /** The entries one key's value contributes under `newKey`. */
  function FlattenEntry(value: Value, newKey: string): map<string, Value>
    decreases value, 2
  {
    match value
    case Arr(items) => FlattenItems(value, |items|, newKey)
    case Obj(_) => Flatten(value, newKey)
    case _ => map[newKey := value]
  }

  /** The entries of the first n elements of an array value. */
  function FlattenItems(arr: Value, n: nat, newKey: string): map<string, Value>
    requires arr.Arr? && n <= |arr.items|
    decreases arr, 0, n
  {
    if n == 0 then map[]
    else
      FlattenItems(arr, n - 1, newKey) +
      FlattenItem(arr.items[n - 1], newKey + "." + NatToString(n - 1))
  }

  /** An element that is `typeof "object"` and not an array (a record or
      `null`) is flattened under `arrayKey`; any other element is a leaf. */
  function FlattenItem(item: Value, arrayKey: string): map<string, Value>
    decreases item, 2
  {
    if item.Obj? || item == Prim(Null) then Flatten(item, arrayKey) else map[arrayKey := item]
  }

  // ---------------------------------------------------------------------
  // The loops

  /** `for (const [innerKey, value] of innerMap.entries()) resultMap.set(innerKey, value)`. */
  method MergeInto(resultMap: map<string, Value>, innerMap: map<string, Value>) returns (r: map<string, Value>)
    ensures r == resultMap + innerMap
  {
    r := resultMap;
    var pending := innerMap.Keys;
    while pending != {}
      invariant pending <= innerMap.Keys
      invariant forall k :: k in r <==> k in resultMap || (k in innerMap && k !in pending)
      invariant forall k :: k in r ==> r[k] == if k in innerMap && k !in pending then innerMap[k] else resultMap[k]
      decreases pending
    {
      var innerKey :| innerKey in pending;
      r := r[innerKey := innerMap[innerKey]];
      pending := pending - {innerKey};
    }
  }

  /** The source's loop over the keys of a record, recursing into records. */
  method FlattenRecord(record: Value, parentKey: string) returns (resultMap: map<string, Value>)
    ensures resultMap == Flatten(record, parentKey)
    decreases record, 1
  {
    resultMap := map[];
    if !record.Obj? {
      return;
    }
    var fields := record.fields;
    for i := 0 to |fields|
      invariant resultMap == FlattenFields(record, i, parentKey)
    {
      var key := fields[i].0;
      var value := fields[i].1;
      assert value < record;
      var newKey := if parentKey != "" then parentKey + "." + key else key;
      MergeAssoc(map[], FlattenFields(record, i, parentKey), FlattenEntry(value, newKey));
      resultMap := AddEntry(resultMap, value, newKey);
    }
  }

  /** The body of the key loop: an array's elements, a record's entries, or
      the value itself as a leaf. */
  method AddEntry(resultMap: map<string, Value>, value: Value, newKey: string) returns (r: map<string, Value>)
    ensures r == resultMap + FlattenEntry(value, newKey)
    decreases value, 2
  {
    if value.Arr? {
      r := FlattenArrayInto(resultMap, value, newKey);
    } else if value.Obj? {
      var innerMap := FlattenRecord(value, newKey);
      r := MergeInto(resultMap, innerMap);
    } else {
      r := resultMap[newKey := value];
    }
  }

  /** The source's `value.forEach` over an array value, adding to resultMap. */
  method FlattenArrayInto(resultMap: map<string, Value>, arr: Value, newKey: string) returns (r: map<string, Value>)
    requires arr.Arr?
    ensures r == resultMap + FlattenItems(arr, |arr.items|, newKey)
    decreases arr, 1
  {
    r := resultMap;
    var items := arr.items;
    for index := 0 to |items|
      invariant r == resultMap + FlattenItems(arr, index, newKey)
    {
      var item := items[index];
      assert item < arr;
      var arrayKey := newKey + "." + NatToString(index);
      MergeAssoc(resultMap, FlattenItems(arr, index, newKey), FlattenItem(item, arrayKey));
      r := AddItem(r, item, arrayKey);
    }
  }

  /** The body of the element loop. */
  method AddItem(resultMap: map<string, Value>, item: Value, arrayKey: string) returns (r: map<string, Value>)
    ensures r == resultMap + FlattenItem(item, arrayKey)
    decreases item, 2
  {
    if item.Obj? || item == Prim(Null) {
      var innerMap := FlattenRecord(item, arrayKey);
      r := MergeInto(resultMap, innerMap);
    } else {
      r := resultMap[arrayKey := item];
    }
  }

  // ---------------------------------------------------------------------
  // Which paths are leaves

  /** p leads from a record, through its keys, to a value the flattening
      records: a primitive or `undefined` under a key, or an element of an
      array under a key that is neither a record nor `null`. */
  predicate LeafPath(record: Value, p: seq<string>)
    decreases record, 1
  {
    record.Obj? && |p| >= 1 &&
    exists i :: 0 <= i < |record.fields| && record.fields[i].0 == p[0] && EntryLeafPath(record.fields[i].1, p[1..])
  }

  predicate EntryLeafPath(value: Value, rest: seq<string>)
    decreases value, 2
  {
    match value
    case Arr(items) =>
      |rest| >= 1 && ParseIndex(rest[0]).Some? && ParseIndex(rest[0]).value < |items| &&
      ItemLeafPath(items[ParseIndex(rest[0]).value], rest[1..])
    case Obj(_) => LeafPath(value, rest)
    case _ => rest == []
  }

  predicate ItemLeafPath(item: Value, rest: seq<string>)
    decreases item, 2
  {
    if item.Obj? then LeafPath(item, rest) else item != Prim(Null) && rest == []
  }

  /** The text a key gains below `newKey`: nothing for a leaf, otherwise a
      dot and the dotted rest. */
  function Suffix(rest: seq<string>): string
  {
    if rest == [] then "" else "." + Join(rest)
  }

  lemma UnderJoin(parentKey: string, key: string, rest: seq<string>)
    requires key != ""
    ensures Under(parentKey, Join([key] + rest)) == Under(parentKey, key) + Suffix(rest)
    ensures Under(parentKey, key) != ""
  {
    if rest != [] {
      assert ([key] + rest)[1..] == rest;
    }
  }

  lemma UnderInjective(parentKey: string, a: string, b: string)
    requires Under(parentKey, a) == Under(parentKey, b)
    ensures a == b
  {
    if parentKey != "" {
      var n := |parentKey| + 1;
      assert a == Under(parentKey, a)[n..];
      assert b == Under(parentKey, b)[n..];
    }
  }

  /** Two dot-free paths with the same dotted text are the same path. */
  lemma JoinInjective(p: seq<string>, q: seq<string>)
    requires |p| >= 1 && |q| >= 1 && AllNoDot(p) && AllNoDot(q) && Join(p) == Join(q)
    ensures p == q && p[0] == q[0]
  {
    SplitJoin(p);
    SplitJoin(q);
  }

  lemma DistinctKeysAt(fs: Fields, i: nat, j: nat)
    requires DistinctKeys(fs) && i < j < |fs|
    ensures fs[i].0 != fs[j].0
  {
    if i > 0 {
      DistinctKeysAt(fs[1..], i - 1, j - 1);
    } else {
      assert fs[1..][j - 1] == fs[j];
      HasKeyAt(fs[1..], j - 1);
    }
  }

  // ---------------------------------------------------------------------
  // Every entry is a leaf

  /** The last key among the first n whose entries hold k is where k's value
      comes from. */
  lemma {:induction false} FieldsSource(record: Value, n: nat, parentKey: string, k: string) returns (i: nat)
    requires record.Obj? && n <= |record.fields| && k in FlattenFields(record, n, parentKey)
    ensures i < n
    ensures var e := FlattenEntry(record.fields[i].1, Under(parentKey, record.fields[i].0));
      k in e && FlattenFields(record, n, parentKey)[k] == e[k]
  {
    var e := FlattenEntry(record.fields[n - 1].1, Under(parentKey, record.fields[n - 1].0));
    if k in e {
      i := n - 1;
    } else {
      i := FieldsSource(record, n - 1, parentKey, k);
    }
  }

  lemma {:induction false} ItemsSource(arr: Value, n: nat, newKey: string, k: string) returns (j: nat)
    requires arr.Arr? && n <= |arr.items| && k in FlattenItems(arr, n, newKey)
    ensures j < n
    ensures var e := FlattenItem(arr.items[j], newKey + "." + NatToString(j));
      k in e && FlattenItems(arr, n, newKey)[k] == e[k]
  {
    var e := FlattenItem(arr.items[n - 1], newKey + "." + NatToString(n - 1));
    if k in e {
      j := n - 1;
    } else {
      j := ItemsSource(arr, n - 1, newKey, k);
    }
  }

  /** Every key of the flattened record is the dotted form of a leaf path,
      and maps to what reading that path gives. */
  lemma {:induction false} FlattenSound(record: Value, parentKey: string, k: string) returns (q: seq<string>)
    requires Plain(record) && k in Flatten(record, parentKey)
    ensures LeafPath(record, q) && AllNoDot(q)
    ensures k == Under(parentKey, Join(q))
    ensures Flatten(record, parentKey)[k] == GetByPathArray(record, q)
    decreases record, 1
  {
    var fs := record.fields;
    var i := FieldsSource(record, |fs|, parentKey, k);
    var newKey := Under(parentKey, fs[i].0);
    UnderJoin(parentKey, fs[i].0, []);
    var rest := EntrySound(fs[i].1, newKey, k);
    q := [fs[i].0] + rest;
    AllNoDotCons(fs[i].0, rest);
    UnderJoin(parentKey, fs[i].0, rest);
    assert q[1..] == rest;
    assert LeafPath(record, q);
    LookupAt(fs, i);
    GetStep(record, fs[i].0, rest);
  }

  lemma {:induction false} EntrySound(value: Value, newKey: string, k: string) returns (rest: seq<string>)
    requires Plain(value) && newKey != "" && k in FlattenEntry(value, newKey)
    ensures EntryLeafPath(value, rest) && AllNoDot(rest)
    ensures k == newKey + Suffix(rest)
    ensures FlattenEntry(value, newKey)[k] == GetByPathArray(value, rest)
    decreases value, 2
  {
    match value
    case Arr(_) =>
      rest := ArraySound(value, newKey, k);
    case Obj(_) =>
      rest := FlattenSound(value, newKey, k);
    case _ =>
      rest := [];
  }

  lemma {:induction false} ArraySound(value: Value, newKey: string, k: string) returns (rest: seq<string>)
    requires value.Arr? && Plain(value) && newKey != "" && k in FlattenItems(value, |value.items|, newKey)
    ensures EntryLeafPath(value, rest) && AllNoDot(rest)
    ensures k == newKey + Suffix(rest)
    ensures FlattenItems(value, |value.items|, newKey)[k] == GetByPathArray(value, rest)
    decreases value, 1
  {
    var items := value.items;
    var j := ItemsSource(value, |items|, newKey, k);
    var idx := NatToString(j);
    NatToStringIsIndex(j);
    var item := items[j];
    var arrayKey := newKey + "." + idx;
    assert Plain(item);
    var q: seq<string>;
    if item.Obj? {
      q := FlattenSound(item, arrayKey, k);
    } else {
      q := [];
    }
    rest := [idx] + q;
    assert rest[0] == idx && rest[1..] == q;
    AllNoDotCons(idx, q);
    IndexKey(newKey, idx, q);
    GetStep(value, idx, q);
  }

  // ---------------------------------------------------------------------
  // Every leaf has an entry

  lemma {:induction false} FieldsKeep(record: Value, n: nat, parentKey: string, i: nat, r: seq<string>)
    requires record.Obj? && Plain(record) && i < n <= |record.fields| && AllNoDot(r)
    requires var k := Under(parentKey, record.fields[i].0) + Suffix(r);
      k in FlattenEntry(record.fields[i].1, Under(parentKey, record.fields[i].0))
    ensures var k := Under(parentKey, record.fields[i].0) + Suffix(r);
      k in FlattenFields(record, n, parentKey) &&
      FlattenFields(record, n, parentKey)[k] == FlattenEntry(record.fields[i].1, Under(parentKey, record.fields[i].0))[k]
  {
    var fs := record.fields;
    var k := Under(parentKey, fs[i].0) + Suffix(r);
    if i < n - 1 {
      FieldsKeep(record, n - 1, parentKey, i, r);
      var newKey := Under(parentKey, fs[n - 1].0);
      UnderJoin(parentKey, fs[n - 1].0, []);
      if k in FlattenEntry(fs[n - 1].1, newKey) {
        var r' := EntrySound(fs[n - 1].1, newKey, k);
        UnderJoin(parentKey, fs[i].0, r);
        UnderJoin(parentKey, fs[n - 1].0, r');
        UnderInjective(parentKey, Join([fs[i].0] + r), Join([fs[n - 1].0] + r'));
        AllNoDotCons(fs[i].0, r);
        AllNoDotCons(fs[n - 1].0, r');
        DistinctKeysAt(fs, i, n - 1);
        JoinInjective([fs[i].0] + r, [fs[n - 1].0] + r');
      }
    }
  }

  lemma {:induction false} ItemsKeep(arr: Value, n: nat, newKey: string, j: nat, r: seq<string>)
    requires arr.Arr? && Plain(arr) && j < n <= |arr.items| && AllNoDot(r) && newKey != ""
    requires var k := newKey + Suffix([NatToString(j)] + r);
      k in FlattenItem(arr.items[j], newKey + "." + NatToString(j))
    ensures var k := newKey + Suffix([NatToString(j)] + r);
      k in FlattenItems(arr, n, newKey) &&
      FlattenItems(arr, n, newKey)[k] == FlattenItem(arr.items[j], newKey + "." + NatToString(j))[k]
  {
    var k := newKey + Suffix([NatToString(j)] + r);
    if j < n - 1 {
      ItemsKeep(arr, n - 1, newKey, j, r);
      var last := n - 1;
      var arrayKey := newKey + "." + NatToString(last);
      if k in FlattenItem(arr.items[last], arrayKey) {
        NatToStringIsIndex(last);
        NatToStringIsIndex(j);
        var r' := ItemSound(arr.items[last], newKey, last, k);
        var a := [NatToString(j)] + r;
        var b := [NatToString(last)] + r';
        assert Suffix(a) == k[|newKey|..] == Suffix(b);
        assert Join(a) == Suffix(a)[1..];
        assert Join(b) == Suffix(b)[1..];
        AllNoDotCons(NatToString(j), r);
        AllNoDotCons(NatToString(last), r');
        JoinInjective(a, b);
      }
    }
  }

  /** The keys an element contributes start with its index. */
  lemma ItemSound(item: Value, newKey: string, j: nat, k: string) returns (r: seq<string>)
    requires Plain(item) && newKey != "" && k in FlattenItem(item, newKey + "." + NatToString(j))
    ensures AllNoDot(r) && k == newKey + Suffix([NatToString(j)] + r)
  {
    var idx := NatToString(j);
    if item.Obj? {
      r := FlattenSound(item, newKey + "." + idx, k);
      IndexKey(newKey, idx, r);
    } else {
      r := [];
      IndexKey(newKey, idx, r);
    }
  }

  lemma UnderSuffix(newKey: string, rest: seq<string>)
    requires newKey != "" && rest != []
    ensures Under(newKey, Join(rest)) == newKey + Suffix(rest)
  {
  }

  /** Adding two maps in turn is adding their sum. */
  lemma MergeAssoc(a: map<string, Value>, b: map<string, Value>, c: map<string, Value>)
    ensures a + b + c == a + (b + c)
  {
  }

  /** The key of element idx of the array under newKey, extended by rest. */
  lemma IndexKey(newKey: string, idx: string, rest: seq<string>)
    ensures rest != [] ==> Under(newKey + "." + idx, Join(rest)) == newKey + Suffix([idx] + rest)
    ensures rest == [] ==> newKey + "." + idx == newKey + Suffix([idx] + rest)
  {
    if rest == [] {
      assert [idx] + rest == [idx];
    } else {
      var j := Join(rest);
      assert ([idx] + rest)[1..] == rest;
      calc {
        Under(newKey + "." + idx, j);
        (newKey + "." + idx) + "." + j;
        newKey + ("." + (idx + "." + j));
        newKey + ("." + Join([idx] + rest));
      }
    }
  }

  /** Every leaf path of the record has an entry under its dotted form,
      mapping to what reading the path gives. */
  lemma {:induction false} FlattenComplete(record: Value, parentKey: string, q: seq<string>)
    requires Plain(record) && LeafPath(record, q)
    ensures AllNoDot(q)
    ensures Under(parentKey, Join(q)) in Flatten(record, parentKey)
    ensures Flatten(record, parentKey)[Under(parentKey, Join(q))] == GetByPathArray(record, q)
    decreases record, 1
  {
    var fs := record.fields;
    var i :| 0 <= i < |fs| && fs[i].0 == q[0] && EntryLeafPath(fs[i].1, q[1..]);
    var rest := q[1..];
    var newKey := Under(parentKey, fs[i].0);
    UnderJoin(parentKey, fs[i].0, rest);
    EntryComplete(fs[i].1, newKey, rest);
    assert q == [fs[i].0] + rest;
    AllNoDotCons(fs[i].0, rest);
    FieldsKeep(record, |fs|, parentKey, i, rest);
    LookupAt(fs, i);
    GetStep(record, fs[i].0, rest);
  }

  lemma {:induction false} EntryComplete(value: Value, newKey: string, rest: seq<string>)
    requires Plain(value) && newKey != "" && EntryLeafPath(value, rest)
    ensures AllNoDot(rest)
    ensures newKey + Suffix(rest) in FlattenEntry(value, newKey)
    ensures FlattenEntry(value, newKey)[newKey + Suffix(rest)] == GetByPathArray(value, rest)
    decreases value, 2
  {
    match value
    case Arr(_) =>
      ArrayComplete(value, newKey, rest);
    case Obj(_) =>
      FlattenComplete(value, newKey, rest);
      UnderSuffix(newKey, rest);
    case _ =>
      assert newKey + Suffix(rest) == newKey;
  }

  lemma {:induction false} ArrayComplete(value: Value, newKey: string, rest: seq<string>)
    requires value.Arr? && Plain(value) && newKey != "" && EntryLeafPath(value, rest)
    ensures AllNoDot(rest)
    ensures newKey + Suffix(rest) in FlattenItems(value, |value.items|, newKey)
    ensures FlattenItems(value, |value.items|, newKey)[newKey + Suffix(rest)] == GetByPathArray(value, rest)
    decreases value, 1
  {
    var items := value.items;
    var j := ParseIndex(rest[0]).value;
    CanonicalIndexIsNatToString(rest[0]);
    var idx := NatToString(j);
    var item := items[j];
    var arrayKey := newKey + "." + idx;
    var r := rest[1..];
    assert rest == [idx] + r;
    assert Plain(item) && ItemLeafPath(item, r);
    IndexKey(newKey, idx, r);
    if item.Obj? {
      FlattenComplete(item, arrayKey, r);
    }
    NatToStringIsIndex(j);
    AllNoDotCons(idx, r);
    ItemsKeep(value, |items|, newKey, j, r);
    GetStep(value, idx, r);
  }

  /** A dotted key is in the flattened record exactly when it names a leaf,
      and it maps to what `get` reads under it. */
  lemma FlattenLeaves(record: Value, k: string)
    requires Plain(record)
    ensures k in Flatten(record, "") <==> LeafPath(record, PathToArray(k))
    ensures k in Flatten(record, "") ==> Flatten(record, "")[k] == Get(record, k)
  {
    if k in Flatten(record, "") {
      var q := FlattenSound(record, "", k);
      PathToArrayUnique(k, q);
    }
    if LeafPath(record, PathToArray(k)) {
      FlattenComplete(record, "", PathToArray(k));
    }
  }

  // ---------------------------------------------------------------------
  // The examples

  /** A flat record maps each key to its own value; an empty record gives
      an empty map. */
  lemma FlattenFlatExamples()
    ensures Flatten(Obj([("name", Prim(Str("John Doe"))), ("age", Prim(Num(30)))]), "") ==
      map["name" := Prim(Str("John Doe")), "age" := Prim(Num(30))]
    ensures Flatten(Obj([]), "") == map[]
  {
    var record := Obj([("name", Prim(Str("John Doe"))), ("age", Prim(Num(30)))]);
    assert Under("", "name") == "name" && Under("", "age") == "age";
    assert FlattenFields(record, 1, "") == map["name" := Prim(Str("John Doe"))];
    assert FlattenFields(record, 2, "") == FlattenFields(record, 1, "") + map["age" := Prim(Num(30))];
  }

  function NestedExample(): Value
  {
    Obj([("name", Obj([("givenName", Prim(Str("John"))), ("lastName", Prim(Str("Doe")))])),
         ("age", Prim(Num(25)))])
  }

  lemma NestedExamplePlain()
    ensures Plain(NestedExample())
  {
    var name := Obj([("givenName", Prim(Str("John"))), ("lastName", Prim(Str("Doe")))]);
    PlainPair("givenName", Prim(Str("John")), "lastName", Prim(Str("Doe")));
    PlainPair("name", name, "age", Prim(Num(25)));
  }

  /** A two-key record with distinct, non-empty, dot-free keys over plain
      values is plain. */
  lemma PlainPair(k1: string, v1: Value, k2: string, v2: Value)
    requires k1 != "" && k2 != "" && k1 != k2 && NoDot(k1) && NoDot(k2) && Plain(v1) && Plain(v2)
    ensures Plain(Obj([(k1, v1), (k2, v2)]))
  {
    var fs := [(k1, v1), (k2, v2)];
    assert fs[1..] == [(k2, v2)] && fs[1..][1..] == [];
  }

  /** Nested records flatten to dotted keys holding their leaves. */
  lemma FlattenNestedExample(record: Value, key: string)
    requires record == NestedExample() && key == "name" + "." + "lastName"
    ensures var m := Flatten(record, "");
      key in m && m[key] == Prim(Str("Doe"))
  {
    var p := ["name", "lastName"];
    NestedExamplePlain();
    NestedExampleLeaf();
    FlattenComplete(record, "", p);
    calc {
      Under("", Join(p));
      Join(p);
      "name" + "." + Join(["lastName"]);
      key;
    }
    calc {
      GetByPathArray(record, p);
      { GetStep(record, "name", ["lastName"]); }
      GetByPathArray(Prop(record, "name"), ["lastName"]);
      Prim(Str("Doe"));
    }
  }

  lemma NestedExampleLeaf()
    ensures LeafPath(NestedExample(), ["name", "lastName"])
  {
    var record := NestedExample();
    var name := record.fields[0].1;
    assert ["name", "lastName"][1..] == ["lastName"];
    assert name.fields[1].0 == "lastName" && EntryLeafPath(name.fields[1].1, ["lastName"][1..]);
    assert LeafPath(name, ["lastName"]);
    assert record.fields[0].0 == "name";
  }

  /** A top-level leaf keeps its own key; a key holding a record is not an
      entry itself. */
  lemma FlattenTopLevelExample(record: Value)
    requires record == NestedExample()
    ensures var m := Flatten(record, "");
      "age" in m && m["age"] == Prim(Num(25)) && "name" !in m
  {
    NestedExamplePlain();
    assert LeafPath(record, ["age"]) by {
      assert record.fields[1].0 == "age" && EntryLeafPath(record.fields[1].1, ["age"][1..]);
    }
    FlattenComplete(record, "", ["age"]);
    FlattenLeaves(record, "name");
    SplitNoDotIsSingleton("name");
    assert !LeafPath(record, ["name"]) by {
      assert ["name"][1..] == [];
    }
  }

  /** An array under a key contributes its non-record elements as leaves
      under `key.index`, without descending into them; an empty array
      contributes nothing. */
  lemma FlattenArrayLeaf(record: Value, i: nat, j: nat)
    requires Plain(record) && record.Obj? && i < |record.fields|
    requires record.fields[i].1.Arr? && j < |record.fields[i].1.items|
    requires var item := record.fields[i].1.items[j]; !item.Obj? && item != Prim(Null)
    ensures var m := Flatten(record, "");
      var k := record.fields[i].0 + "." + NatToString(j);
      k in m && m[k] == record.fields[i].1.items[j]
    ensures FlattenEntry(Arr([]), record.fields[i].0) == map[]
  {
    var key := record.fields[i].0;
    var idx := NatToString(j);
    var p := [key, idx];
    NatToStringIsIndex(j);
    assert p[1..] == [idx] && p[1..][1..] == [];
    assert ItemLeafPath(record.fields[i].1.items[j], p[1..][1..]);
    assert EntryLeafPath(record.fields[i].1, p[1..]);
    assert record.fields[i].0 == p[0];
    assert LeafPath(record, p);
    FlattenComplete(record, "", p);
    assert Join(p) == key + "." + idx;
    GetStep(record, key, [idx]);
    LookupAt(record.fields, i);
    GetStep(record.fields[i].1, idx, []);
  }
}
