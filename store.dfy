/** lib/v2/store.ts: the form store's initial state, its three updaters, and
    the recursive discovery of field arrays. Identity keys come from an
    abstract supplier: the n-th key issued is the number n, so a run that
    starts at `next` issues next, next + 1, ... in order. */
module Store {
  import opened Results
  import opened JsString
  import opened JsValue
  import opened Utils
  import opened ImmutableUtils

  // ---------------------------------------------------------------------
  // Issued keys

  /** The keys a, a + 1, ..., b - 1. */
  function Range(a: nat, b: nat): (r: seq<nat>)
    requires a <= b
    ensures |r| == b - a && forall i :: 0 <= i < |r| ==> r[i] == a + i
  {
    seq(b - a, i requires 0 <= i < b - a => a + i)
  }

  lemma RangeSplit(a: nat, b: nat, c: nat)
    requires a <= b <= c
    ensures Range(a, b) + Range(b, c) == Range(a, c)
  {
  }

  /** A registered array: its dotted path and one key per element. */
  type Entry = (string, seq<nat>)

  /** Every key of the entries, in registration order. */
  function AllKeys(entries: seq<Entry>): seq<nat>
  {
    if entries == [] then [] else entries[0].1 + AllKeys(entries[1..])
  }

  lemma {:induction false} AllKeysAppend(x: seq<Entry>, y: seq<Entry>)
    ensures AllKeys(x + y) == AllKeys(x) + AllKeys(y)
  {
    if x == [] {
      assert x + y == y;
    } else {
      assert (x + y)[1..] == x[1..] + y;
      AllKeysAppend(x[1..], y);
    }
  }

  /** The `result` array after a run, and the supplier's next key. */
  datatype Registered = Registered(entries: seq<Entry>, next: nat)

  /** Two runs in turn: the second starts where the first stopped. */
  function Then(a: Registered, b: Registered): Registered
  {
    Registered(a.entries + b.entries, b.next)
  }

  lemma ThenIssues(a: Registered, b: Registered, start: nat)
    requires start <= a.next <= b.next
    requires AllKeys(a.entries) == Range(start, a.next) && AllKeys(b.entries) == Range(a.next, b.next)
    ensures AllKeys(Then(a, b).entries) == Range(start, b.next)
  {
    AllKeysAppend(a.entries, b.entries);
    RangeSplit(start, a.next, b.next);
  }

  // ---------------------------------------------------------------------
  // findFieldArraysRecursively, as functions

  /** Line 113 searches a record child under `${name}.`, dropping the
      enclosing prefix; the corrected rule keeps it. */
  datatype PrefixRule = AsWritten | Corrected

  function ChildPrefix(rule: PrefixRule, prefix: string, name: string): string
  {
    match rule
    case AsWritten => name + "."
    case Corrected => prefix + name + "."
  }

  /** The number of keys `for...in` visits: a record's keys, an array's indices. */
  function KeyCount(v: Value): nat
  {
    match v
    case Obj(fs) => |fs|
    case Arr(items) => |items|
    case _ => 0
  }

  /** A run over `values` under `prefix`, starting at key `next`. `for...in`
      over a string, a number, a boolean or a nullish value visits nothing
      that is a record or an array, so only records and arrays contribute.
      The keys issued are exactly next, ..., r.next - 1, in entry order. */
  function Scan(values: Value, prefix: string, next: nat, rule: PrefixRule): Registered
    decreases values, 1
  {
    if IsObject(values) then ScanKeys(values, KeyCount(values), prefix, next, rule)
    else Registered([], next)
  }

  /** The run after the loop has visited the first n keys. */
  function ScanKeys(values: Value, n: nat, prefix: string, next: nat, rule: PrefixRule): Registered
    requires IsObject(values) && n <= KeyCount(values)
    decreases values, 0, n
  {
    if n == 0 then Registered([], next)
    else
      var before := ScanKeys(values, n - 1, prefix, next, rule);
      var after :=
        if values.Obj? then ScanEntry(values.fields[n - 1].0, values.fields[n - 1].1, prefix, before.next, rule)
        else ScanEntry(NatToString(n - 1), values.items[n - 1], prefix, before.next, rule);
      Then(before, after)
  }

  /** One visited key: an array is registered under `${prefix}${name}` with
      one fresh key per element, issued before its elements are searched; a
      record is searched under the child prefix; anything else adds nothing. */
  function ScanEntry(name: string, value: Value, prefix: string, next: nat, rule: PrefixRule): Registered
    decreases value, 2
  {
    match value
    case Arr(items) =>
      var fan := prefix + name;
      var inner := ScanItems(value, |items|, fan, next + |items|, rule);
      var own := Registered([(fan, Range(next, next + |items|))], next + |items|);
      Then(own, inner)
    case Obj(_) => Scan(value, ChildPrefix(rule, prefix, name), next, rule)
    case _ => Registered([], next)
  }

  /** The `forEach` over the first n elements: each record or array element
      is searched under `${fieldArrayName}.${index}.`. */
  function ScanItems(arr: Value, n: nat, fan: string, next: nat, rule: PrefixRule): Registered
    requires arr.Arr? && n <= |arr.items|
    decreases arr, 0, n
  {
    if n == 0 then Registered([], next)
    else
      var before := ScanItems(arr, n - 1, fan, next, rule);
      var item := arr.items[n - 1];
      if IsObject(item) then
        Then(before, Scan(item, fan + "." + NatToString(n - 1) + ".", before.next, rule))
      else before
  }

  // ---------------------------------------------------------------------
  // The keys a run issues

  /** A run starting at `next` issues exactly next, ..., r.next - 1, in entry order. */
  lemma {:induction false} ScanIssues(values: Value, prefix: string, next: nat, rule: PrefixRule)
    ensures var r := Scan(values, prefix, next, rule);
      next <= r.next && AllKeys(r.entries) == Range(next, r.next)
    decreases values, 1
  {
    if IsObject(values) {
      ScanKeysIssues(values, KeyCount(values), prefix, next, rule);
    }
  }

  lemma {:induction false} ScanKeysIssues(values: Value, n: nat, prefix: string, next: nat, rule: PrefixRule)
    requires IsObject(values) && n <= KeyCount(values)
    ensures var r := ScanKeys(values, n, prefix, next, rule);
      next <= r.next && AllKeys(r.entries) == Range(next, r.next)
    decreases values, 0, n
  {
    if n > 0 {
      ScanKeysIssues(values, n - 1, prefix, next, rule);
      var before := ScanKeys(values, n - 1, prefix, next, rule);
      if values.Obj? {
        ScanEntryIssues(values.fields[n - 1].0, values.fields[n - 1].1, prefix, before.next, rule);
        ThenIssues(before, ScanEntry(values.fields[n - 1].0, values.fields[n - 1].1, prefix, before.next, rule), next);
      } else {
        ScanEntryIssues(NatToString(n - 1), values.items[n - 1], prefix, before.next, rule);
        ThenIssues(before, ScanEntry(NatToString(n - 1), values.items[n - 1], prefix, before.next, rule), next);
      }
    }
  }

  lemma {:induction false} ScanEntryIssues(name: string, value: Value, prefix: string, next: nat, rule: PrefixRule)
    ensures var r := ScanEntry(name, value, prefix, next, rule);
      next <= r.next && AllKeys(r.entries) == Range(next, r.next)
    decreases value, 2
  {
    match value
    case Arr(items) =>
      var fan := prefix + name;
      var start := next + |items|;
      ScanItemsIssues(value, |items|, fan, start, rule);
      var own := Registered([(fan, Range(next, start))], start);
      assert AllKeys(own.entries) == Range(next, start) by {
        assert own.entries[1..] == [];
      }
      ThenIssues(own, ScanItems(value, |items|, fan, start, rule), next);
    case Obj(_) => ScanIssues(value, ChildPrefix(rule, prefix, name), next, rule);
    case _ =>
  }

  lemma {:induction false} ScanItemsIssues(arr: Value, n: nat, fan: string, next: nat, rule: PrefixRule)
    requires arr.Arr? && n <= |arr.items|
    ensures var r := ScanItems(arr, n, fan, next, rule);
      next <= r.next && AllKeys(r.entries) == Range(next, r.next)
    decreases arr, 0, n
  {
    if n > 0 {
      ScanItemsIssues(arr, n - 1, fan, next, rule);
      var before := ScanItems(arr, n - 1, fan, next, rule);
      var item := arr.items[n - 1];
      if IsObject(item) {
        var child := fan + "." + NatToString(n - 1) + ".";
        ScanIssues(item, child, before.next, rule);
        ThenIssues(before, Scan(item, child, before.next, rule), next);
      }
    }
  }

  /** No key is issued twice: a fresh identity per element, across the
      whole search. */
  lemma ScanKeysDistinct(values: Value, prefix: string, next: nat, rule: PrefixRule, i: nat, j: nat)
    requires var ks := AllKeys(Scan(values, prefix, next, rule).entries); i < j < |ks|
    ensures var ks := AllKeys(Scan(values, prefix, next, rule).entries); ks[i] != ks[j]
  {
    ScanIssues(values, prefix, next, rule);
  }

  // ---------------------------------------------------------------------
  // Which arrays a run registers

  /** k is a key `for...in` visits on v: a record's own key or an array index. */
  predicate IsKey(v: Value, k: string)
  {
    (v.Obj? && HasKey(v.fields, k)) || (v.Arr? && ParseIndex(k).Some? && ParseIndex(k).value < |v.items|)
  }

  /** q leads from a searched container, through a visited key, to an array
      the search registers: directly an array under the key, or one reached
      inside a record under the key, or one reached inside a record or array
      element of an array under the key. An array directly inside an array
      is searched but not itself registered. */
  predicate Registers(v: Value, q: seq<string>)
    decreases |q|, 0
  {
    |q| >= 1 && IsKey(v, q[0]) && EntryRegisters(Prop(v, q[0]), q[1..])
  }

  /** r leads from the value under a visited key to a registered array. */
  predicate EntryRegisters(value: Value, r: seq<string>)
    decreases |r|, 1
  {
    if r == [] then value.Arr?
    else if value.Obj? then Registers(value, r)
    else value.Arr? && IsKey(value, r[0]) && IsObject(Prop(value, r[0])) && Registers(Prop(value, r[0]), r[1..])
  }

  /** The node at q is an array of n elements, and q has no dotted segment. */
  predicate ArrayAt(v: Value, q: seq<string>, n: nat)
  {
    AllNoDot(q) && GetByPathArray(v, q).Arr? && |GetByPathArray(v, q).items| == n
  }

  lemma DottedCons(prefix: string, a: string, q: seq<string>)
    requires |q| >= 1
    ensures (prefix + a + ".") + Join(q) == prefix + Join([a] + q)
  {
    var segs := [a] + q;
    assert segs[0] == a && segs[1..] == q;
    var j := Join(q);
    assert Join(segs) == a + "." + j;
    SeqAssoc(prefix, a + ".", j);
    SeqAssoc(prefix, a, ".");
  }

  lemma SeqAssocEntries(x: seq<Entry>, y: seq<Entry>, z: seq<Entry>)
    ensures (x + y) + z == x + (y + z)
  {
  }

  lemma SeqAssoc(x: string, y: string, z: string)
    ensures x + (y + z) == (x + y) + z
  {
  }

  /** The name and value `for...in` visits at position j. */
  lemma VisitedKey(values: Value, j: nat) returns (name: string, child: Value)
    requires IsObject(values) && Plain(values) && j < KeyCount(values)
    ensures name == (if values.Obj? then values.fields[j].0 else NatToString(j))
    ensures child == (if values.Obj? then values.fields[j].1 else values.items[j])
    ensures name != "" && NoDot(name) && Plain(child) && IsKey(values, name) && Prop(values, name) == child
  {
    if values.Obj? {
      name, child := values.fields[j].0, values.fields[j].1;
      HasKeyAt(values.fields, j);
      LookupAt(values.fields, j);
    } else {
      name, child := NatToString(j), values.items[j];
      NatToStringIsIndex(j);
    }
  }

  /** Stepping through a visited key: a path registered below the key's
      value is registered below the container, and leads to the same array. */
  lemma KeyStep(values: Value, name: string, child: Value, r: seq<string>, n: nat)
    requires IsKey(values, name) && NoDot(name) && Prop(values, name) == child
    requires EntryRegisters(child, r) && ArrayAt(child, r, n)
    ensures Registers(values, [name] + r) && ArrayAt(values, [name] + r, n)
  {
    var q := [name] + r;
    assert q[0] == name && q[1..] == r;
    ArrayStep(values, name, child, r, n);
  }

  /** The array at r below the value under a key is the array at the key followed by r. */
  lemma ArrayStep(values: Value, name: string, child: Value, r: seq<string>, n: nat)
    requires NoDot(name) && Prop(values, name) == child && ArrayAt(child, r, n)
    ensures ArrayAt(values, [name] + r, n)
  {
    AllNoDotCons(name, r);
    GetStep(values, name, r);
  }

  /** The entries after j + 1 keys are those after j, then those of key j. */
  lemma ScanKeysLast(values: Value, j: nat, prefix: string, next: nat, rule: PrefixRule, name: string, child: Value)
    requires IsObject(values) && j < KeyCount(values)
    requires name == (if values.Obj? then values.fields[j].0 else NatToString(j))
    requires child == (if values.Obj? then values.fields[j].1 else values.items[j])
    ensures var before := ScanKeys(values, j, prefix, next, rule);
      var after := ScanEntry(name, child, prefix, before.next, rule);
      ScanKeys(values, j + 1, prefix, next, rule) == Registered(before.entries + after.entries, after.next)
  {
  }

  // ---------------------------------------------------------------------
  // Every registered path holds an array with one key per element

  lemma {:induction false} ScanSound(values: Value, prefix: string, next: nat, i: nat) returns (q: seq<string>)
    requires IsObject(values) && Plain(values)
    requires i < |Scan(values, prefix, next, Corrected).entries|
    ensures var e := Scan(values, prefix, next, Corrected).entries[i];
      e.0 == prefix + Join(q) && Registers(values, q) && ArrayAt(values, q, |e.1|)
    decreases values, 1
  {
    q := ScanKeysSound(values, KeyCount(values), prefix, next, i);
  }

  lemma {:induction false} ScanKeysSound(values: Value, n: nat, prefix: string, next: nat, i: nat) returns (q: seq<string>)
    requires IsObject(values) && Plain(values) && n <= KeyCount(values)
    requires i < |ScanKeys(values, n, prefix, next, Corrected).entries|
    ensures var e := ScanKeys(values, n, prefix, next, Corrected).entries[i];
      e.0 == prefix + Join(q) && Registers(values, q) && ArrayAt(values, q, |e.1|)
    decreases values, 0, n
  {
    var before := ScanKeys(values, n - 1, prefix, next, Corrected);
    var name, child := VisitedKey(values, n - 1);
    var after := ScanEntry(name, child, prefix, before.next, Corrected);
    ScanKeysLast(values, n - 1, prefix, next, Corrected, name, child);
    var es := ScanKeys(values, n, prefix, next, Corrected).entries;
    assert es == before.entries + after.entries;
    if i < |before.entries| {
      assert es[i] == before.entries[i];
      q := ScanKeysSound(values, n - 1, prefix, next, i);
    } else {
      var e := after.entries[i - |before.entries|];
      assert es[i] == e;
      var r := EntrySound(name, child, prefix, before.next, i - |before.entries|);
      assert EntryRegisters(child, r) && ArrayAt(child, r, |e.1|);
      q := [name] + r;
      KeyStep(values, name, child, r, |e.1|);
    }
  }

  lemma {:induction false} EntrySound(name: string, value: Value, prefix: string, next: nat, i: nat) returns (r: seq<string>)
    requires Plain(value) && name != "" && NoDot(name)
    requires i < |ScanEntry(name, value, prefix, next, Corrected).entries|
    ensures var e := ScanEntry(name, value, prefix, next, Corrected).entries[i];
      e.0 == prefix + Join([name] + r) && EntryRegisters(value, r) && ArrayAt(value, r, |e.1|)
    decreases value, 2
  {
    if value.Arr? {
      var items := value.items;
      if i == 0 {
        r := [];
        assert [name] + r == [name];
      } else {
        r := ItemsSound(value, |items|, prefix + name, next + |items|, i - 1);
        DottedCons(prefix, name, r);
      }
    } else {
      r := ScanSound(value, prefix + name + ".", next, i);
      DottedCons(prefix, name, r);
    }
  }

  lemma {:induction false} ItemsSound(arr: Value, n: nat, fan: string, next: nat, i: nat) returns (r: seq<string>)
    requires arr.Arr? && Plain(arr) && n <= |arr.items|
    requires i < |ScanItems(arr, n, fan, next, Corrected).entries|
    ensures var e := ScanItems(arr, n, fan, next, Corrected).entries[i];
      e.0 == (fan + "." ) + Join(r) && |r| >= 2 &&
      IsKey(arr, r[0]) && IsObject(Prop(arr, r[0])) && Registers(Prop(arr, r[0]), r[1..]) &&
      ArrayAt(arr, r, |e.1|)
    decreases arr, 0, n
  {
    var before := ScanItems(arr, n - 1, fan, next, Corrected);
    if i < |before.entries| {
      r := ItemsSound(arr, n - 1, fan, next, i);
    } else {
      var idx := NatToString(n - 1);
      var item := arr.items[n - 1];
      NatToStringIsIndex(n - 1);
      assert Plain(item);
      var q := ScanSound(item, fan + "." + idx + ".", before.next, i - |before.entries|);
      r := [idx] + q;
      assert r[0] == idx && r[1..] == q;
      DottedCons(fan + ".", idx, q);
      AllNoDotCons(idx, q);
      GetStep(arr, idx, q);
    }
  }

  // ---------------------------------------------------------------------
  // Every array the search reaches is registered

  lemma {:induction false} ScanKeysPrefix(values: Value, m: nat, n: nat, prefix: string, next: nat, rule: PrefixRule)
    requires IsObject(values) && m <= n <= KeyCount(values)
    ensures ScanKeys(values, m, prefix, next, rule).entries <= ScanKeys(values, n, prefix, next, rule).entries
    decreases n - m
  {
    if m < n {
      ScanKeysPrefix(values, m, n - 1, prefix, next, rule);
    }
  }

  lemma {:induction false} ScanItemsPrefix(arr: Value, m: nat, n: nat, fan: string, next: nat, rule: PrefixRule)
    requires arr.Arr? && m <= n <= |arr.items|
    ensures ScanItems(arr, m, fan, next, rule).entries <= ScanItems(arr, n, fan, next, rule).entries
    decreases n - m
  {
    if m < n {
      ScanItemsPrefix(arr, m, n - 1, fan, next, rule);
    }
  }

  /** The entries after j + 1 keys extend those after j by the entries of key j. */
  lemma ScanKeysStep(values: Value, j: nat, prefix: string, next: nat, name: string, child: Value)
    requires IsObject(values) && j < KeyCount(values)
    requires name == (if values.Obj? then values.fields[j].0 else NatToString(j))
    requires child == (if values.Obj? then values.fields[j].1 else values.items[j])
    ensures var before := ScanKeys(values, j, prefix, next, Corrected);
      before.entries + ScanEntry(name, child, prefix, before.next, Corrected).entries
        <= Scan(values, prefix, next, Corrected).entries
  {
    ScanKeysLast(values, j, prefix, next, Corrected, name, child);
    ScanKeysPrefix(values, j + 1, KeyCount(values), prefix, next, Corrected);
  }

  lemma {:induction false} ScanComplete(values: Value, prefix: string, next: nat, q: seq<string>) returns (i: nat)
    requires IsObject(values) && Plain(values) && Registers(values, q)
    ensures var es := Scan(values, prefix, next, Corrected).entries;
      i < |es| && es[i].0 == prefix + Join(q) && ArrayAt(values, q, |es[i].1|)
    decreases values, 1
  {
    var j: nat;
    if values.Obj? {
      j := KeyPosition(values.fields, q[0]);
    } else {
      j := ParseIndex(q[0]).value;
      CanonicalIndexIsNatToString(q[0]);
    }
    var name, child := VisitedKey(values, j);
    assert name == q[0];
    var before := ScanKeys(values, j, prefix, next, Corrected);
    var r := q[1..];
    var k := EntryComplete(name, child, prefix, before.next, r);
    var after := ScanEntry(name, child, prefix, before.next, Corrected);
    var e := after.entries[k];
    assert ArrayAt(child, r, |e.1|);
    i := |before.entries| + k;
    ScanKeysStep(values, j, prefix, next, name, child);
    var es := Scan(values, prefix, next, Corrected).entries;
    assert es[i] == (before.entries + after.entries)[i] == e;
    assert q == [name] + r;
    KeyStep(values, name, child, r, |e.1|);
  }

  lemma {:induction false} EntryComplete(name: string, value: Value, prefix: string, next: nat, r: seq<string>) returns (i: nat)
    requires Plain(value) && name != "" && NoDot(name) && EntryRegisters(value, r)
    ensures var es := ScanEntry(name, value, prefix, next, Corrected).entries;
      i < |es| && es[i].0 == prefix + Join([name] + r) && ArrayAt(value, r, |es[i].1|)
    decreases value, 2
  {
    if r == [] {
      i := 0;
      assert [name] + r == [name];
    } else if value.Obj? {
      i := ScanComplete(value, prefix + name + ".", next, r);
      DottedCons(prefix, name, r);
    } else {
      var items := value.items;
      var start := next + |items|;
      var k := ItemsComplete(value, prefix + name, start, r);
      i := 1 + k;
      DottedCons(prefix, name, r);
    }
  }

  /** A path through an element of an array under a visited key is found
      among the entries of that array's elements. */
  lemma {:induction false} ItemsComplete(arr: Value, fan: string, start: nat, r: seq<string>) returns (k: nat)
    requires arr.Arr? && Plain(arr) && r != []
    requires IsKey(arr, r[0]) && IsObject(Prop(arr, r[0])) && Registers(Prop(arr, r[0]), r[1..])
    ensures var es := ScanItems(arr, |arr.items|, fan, start, Corrected).entries;
      k < |es| && es[k].0 == (fan + ".") + Join(r) && ArrayAt(arr, r, |es[k].1|)
    decreases arr, 0
  {
    var items := arr.items;
    var j := ParseIndex(r[0]).value;
    CanonicalIndexIsNatToString(r[0]);
    var idx := NatToString(j);
    assert idx == r[0];
    var item := items[j];
    assert Plain(item);
    var child := fan + "." + idx + ".";
    var before := ScanItems(arr, j, fan, start, Corrected);
    var inner := Scan(item, child, before.next, Corrected);
    var k' := ScanComplete(item, child, before.next, r[1..]);
    var e := inner.entries[k'];
    assert ArrayAt(item, r[1..], |e.1|);
    assert ScanItems(arr, j + 1, fan, start, Corrected).entries == before.entries + inner.entries;
    ScanItemsPrefix(arr, j + 1, |items|, fan, start, Corrected);
    k := |before.entries| + k';
    var es := ScanItems(arr, |items|, fan, start, Corrected).entries;
    assert es[k] == (before.entries + inner.entries)[k] == e;
    assert r == [idx] + r[1..];
    DottedCons(fan + ".", idx, r[1..]);
    ArrayStep(arr, idx, item, r[1..], |e.1|);
  }

  // ---------------------------------------------------------------------
  // findFieldArrays: Object.fromEntries over the registered entries

  /** The identity key of the n-th key issued, as the string stored in `key`. */
  function KeyString(n: nat): string
  {
    NatToString(n)
  }

  /** `ids.map(id => ({ key: id }))`. */
  function KeyRecords(ids: seq<nat>): (r: seq<Value>)
    ensures |r| == |ids|
    ensures forall i :: 0 <= i < |ids| ==> r[i] == Obj([("key", Prim(Str(KeyString(ids[i]))))])
  {
    if ids == [] then [] else [Obj([("key", Prim(Str(KeyString(ids[0]))))])] + KeyRecords(ids[1..])
  }

  /** `{ fields: ids.map(id => ({ key: id })) }`. */
  function FieldArrayValue(ids: seq<nat>): Value
  {
    Obj([("fields", Arr(KeyRecords(ids)))])
  }

  /** `Object.fromEntries`: entries assigned in order, so a repeated key keeps
      its first position and takes its last value. */
  function FromEntries(entries: seq<Entry>): Fields
  {
    if entries == [] then []
    else
      var last := entries[|entries| - 1];
      Put(FromEntries(entries[..|entries| - 1]), last.0, FieldArrayValue(last.1))
  }

  /** The record has exactly the entries' keys, each once. */
  lemma {:induction false} FromEntriesKeys(entries: seq<Entry>, k: string)
    ensures HasKey(FromEntries(entries), k) <==> exists i :: 0 <= i < |entries| && entries[i].0 == k
    ensures DistinctKeys(FromEntries(entries))
  {
    if entries != [] {
      var init := entries[..|entries| - 1];
      var last := entries[|entries| - 1];
      FromEntriesKeys(init, k);
      PutKeys(FromEntries(init), last.0, FieldArrayValue(last.1), k);
      if exists i :: 0 <= i < |entries| && entries[i].0 == k {
        var i :| 0 <= i < |entries| && entries[i].0 == k;
        if i < |init| {
          assert init[i] == entries[i];
        }
      }
      if exists i :: 0 <= i < |init| && init[i].0 == k {
        var i :| 0 <= i < |init| && init[i].0 == k;
        assert entries[i] == init[i];
      }
    }
  }

  /** A key's value comes from the last entry with that key. */
  lemma {:induction false} FromEntriesLast(entries: seq<Entry>, k: string) returns (i: nat)
    requires HasKey(FromEntries(entries), k)
    ensures i < |entries| && entries[i].0 == k
    ensures Lookup(FromEntries(entries), k) == FieldArrayValue(entries[i].1)
    ensures forall j :: i < j < |entries| ==> entries[j].0 != k
  {
    var init := entries[..|entries| - 1];
    var last := entries[|entries| - 1];
    LookupPut(FromEntries(init), last.0, FieldArrayValue(last.1), k);
    if last.0 == k {
      i := |entries| - 1;
    } else {
      PutKeys(FromEntries(init), last.0, FieldArrayValue(last.1), k);
      i := FromEntriesLast(init, k);
      assert entries[i] == init[i];
      forall j | i < j < |entries|
        ensures entries[j].0 != k
      {
        if j < |init| {
          assert entries[j] == init[j];
        }
      }
    }
  }

  /** `findFieldArrays(values)` with the supplier at `next`, under a prefix rule. */
  function FindFieldArraysBy(values: Value, next: nat, rule: PrefixRule): Value
  {
    Obj(FromEntries(Scan(values, "", next, rule).entries))
  }

  /** The field arrays the store registers: the search as written, whose
      record children are searched under `${name}.`. */
  function FindFieldArrays(values: Value, next: nat): Value
  {
    FindFieldArraysBy(values, next, AsWritten)
  }

  /** The same search with the enclosing prefix kept. */
  function FindFieldArraysCorrected(values: Value, next: nat): Value
  {
    FindFieldArraysBy(values, next, Corrected)
  }

  /** With the prefix kept, the registered paths are exactly the paths along
      visited keys that end at an array, other than an array that is itself
      an element of an array (which is searched but not registered). */
  lemma FindFieldArraysRegisters(values: Value, next: nat, path: string)
    requires IsObject(values) && Plain(values)
    ensures HasKey(FindFieldArraysCorrected(values, next).fields, path) <==> Registers(values, PathToArray(path))
  {
    if HasKey(FindFieldArraysCorrected(values, next).fields, path) {
      RegisteredOnlyReached(values, next, path);
    }
    if Registers(values, PathToArray(path)) {
      ReachedRegistered(values, next, path);
    }
  }

  lemma RegisteredOnlyReached(values: Value, next: nat, path: string)
    requires IsObject(values) && Plain(values)
    requires HasKey(FindFieldArraysCorrected(values, next).fields, path)
    ensures Registers(values, PathToArray(path))
  {
    var es := Scan(values, "", next, Corrected).entries;
    FromEntriesKeys(es, path);
    var i :| 0 <= i < |es| && es[i].0 == path;
    var q := ScanSound(values, "", next, i);
    assert "" + Join(q) == Join(q);
    PathToArrayUnique(path, q);
  }

  lemma ReachedRegistered(values: Value, next: nat, path: string)
    requires IsObject(values) && Plain(values)
    requires Registers(values, PathToArray(path))
    ensures HasKey(FindFieldArraysCorrected(values, next).fields, path)
  {
    var es := Scan(values, "", next, Corrected).entries;
    var i := ScanComplete(values, "", next, PathToArray(path));
    assert "" + Join(PathToArray(path)) == path;
    assert es[i].0 == path;
    FromEntriesKeys(es, path);
  }

  /** Each registered path holds an array there, and one key per element. */
  lemma FindFieldArraysKeys(values: Value, next: nat, path: string) returns (ids: seq<nat>)
    requires IsObject(values) && Plain(values)
    requires HasKey(FindFieldArraysCorrected(values, next).fields, path)
    ensures Get(values, path).Arr?
    ensures Lookup(FindFieldArraysCorrected(values, next).fields, path) == FieldArrayValue(ids)
    ensures |ids| == |Get(values, path).items|
  {
    var es := Scan(values, "", next, Corrected).entries;
    var i := FromEntriesLast(es, path);
    ids := es[i].1;
    var q := ScanSound(values, "", next, i);
    assert "" + Join(q) == Join(q);
    PathToArrayUnique(path, q);
  }

  // ---------------------------------------------------------------------
  // The recorded examples

  /** An empty array is still registered, with no keys. */
  lemma FindFieldArraysEmpty(next: nat)
    ensures FindFieldArrays(Obj([("emails", Arr([]))]), next) ==
      Obj([("emails", Obj([("fields", Arr([]))]))])
  {
    var one := Obj([("emails", Arr([]))]);
    var e := EmptyArrayEntry("emails", "", next, AsWritten);
    assert "" + "emails" == "emails";
    assert ScanKeys(one, 1, "", next, AsWritten).entries == [("emails", [])];
    assert FromEntries([("emails", [])]) == [("emails", FieldArrayValue([]))];
  }

  /** Two empty arrays give two entries, in key order. */
  lemma FindFieldArraysTwoEmpty(next: nat)
    ensures FindFieldArrays(Obj([("emails", Arr([])), ("phones", Arr([]))]), next) ==
      Obj([("emails", Obj([("fields", Arr([]))])), ("phones", Obj([("fields", Arr([]))]))])
  {
    var none := FieldArrayValue([]);
    var two := Obj([("emails", Arr([])), ("phones", Arr([]))]);
    var e := EmptyArrayEntry("emails", "", next, AsWritten);
    var p := EmptyArrayEntry("phones", "", next, AsWritten);
    assert "" + "emails" == "emails" && "" + "phones" == "phones";
    assert ScanKeys(two, 1, "", next, AsWritten).entries == [("emails", [])];
    assert ScanKeys(two, 2, "", next, AsWritten).entries == [("emails", []), ("phones", [])];
    var es := [("emails", []), ("phones", [])];
    assert es[..1] == [("emails", [])];
    assert FromEntries(es[..1]) == [("emails", none)];
    assert FromEntries(es) == Put([("emails", none)], "phones", none);
  }

  /** An empty array under a key registers one entry and issues no key. */
  lemma EmptyArrayEntry(name: string, prefix: string, next: nat, rule: PrefixRule) returns (r: Registered)
    ensures r == ScanEntry(name, Arr([]), prefix, next, rule)
    ensures r.entries == [(prefix + name, [])] && r.next == next
  {
    r := ScanEntry(name, Arr([]), prefix, next, rule);
    assert Range(next, next) == [];
  }

  /** One element gives one key. */
  lemma FindFieldArraysOneElement(next: nat)
    ensures FindFieldArrays(Obj([("emails", Arr([Prim(Str("me@example.com"))]))]), next) ==
      Obj([("emails", Obj([("fields", Arr([Obj([("key", Prim(Str(KeyString(next))))])]))]))])
  {
    var v := Obj([("emails", Arr([Prim(Str("me@example.com"))]))]);
    var arr := Arr([Prim(Str("me@example.com"))]);
    assert "" + "emails" == "emails";
    assert Range(next, next + 1) == [next];
    assert ScanItems(arr, 1, "emails", next + 1, AsWritten).entries == [];
    assert ScanEntry("emails", arr, "", next, AsWritten).entries == [("emails", [next])];
    assert ScanKeys(v, 1, "", next, AsWritten).entries == [("emails", [next])];
    var keys := KeyRecords([next]);
    assert keys == [Obj([("key", Prim(Str(KeyString(next))))])];
    assert FieldArrayValue([next]) == Obj([("fields", Arr([Obj([("key", Prim(Str(KeyString(next))))])]))]);
    assert FromEntries([("emails", [next])]) == [("emails", FieldArrayValue([next]))];
  }

  function Bruce(): Value
  {
    Obj([("id", Prim(Str("1"))), ("name", Prim(Str("Bruce"))), ("emails", Arr([]))])
  }

  /** A record element is searched for arrays: its scalar keys add nothing
      and its empty `emails` array is registered under the element's prefix. */
  lemma BruceEntries(prefix: string, next: nat, rule: PrefixRule)
    ensures Scan(Bruce(), prefix, next, rule) == Registered([(prefix + "emails", [])], next)
  {
    var b := Bruce();
    var e := EmptyArrayEntry("emails", prefix, next, rule);
    assert ScanKeys(b, 1, prefix, next, rule) == Registered([], next);
    assert ScanKeys(b, 2, prefix, next, rule) == Registered([], next);
  }

  /** The contacts array is registered with one key, then the array inside
      its element under `contacts.0.emails`. */
  lemma ContactsEntry(name: string, prefix: string, next: nat, rule: PrefixRule)
    requires name == "contacts"
    ensures ScanEntry(name, Arr([Bruce()]), prefix, next, rule).entries ==
      [(prefix + name, [next]), (prefix + name + "." + "0" + "." + "emails", [])]
  {
    var arr := Arr([Bruce()]);
    var fan := prefix + name;
    assert NatToString(0) == "0";
    BruceEntries(fan + "." + "0" + ".", next + 1, rule);
    assert ScanItems(arr, 1, fan, next + 1, rule).entries == [(fan + "." + "0" + "." + "emails", [])];
    assert Range(next, next + 1) == [next];
  }

  /** The recorded nesting case at the top level: `contacts`, then
      `contacts.0.emails`. */
  lemma FindFieldArraysContacts(next: nat, path: string)
    requires path == "contacts" + "." + "0" + "." + "emails"
    ensures Scan(Obj([("contacts", Arr([Bruce()]))]), "", next, AsWritten).entries ==
      [("contacts", [next]), (path, [])]
  {
    ContactsEntry("contacts", "", next, AsWritten);
    assert "" + "contacts" == "contacts";
  }

  /** One record down: `profile.contacts`, then `profile.contacts.0.emails`. */
  lemma FindFieldArraysProfile(next: nat, outer: string, path: string)
    requires outer == "profile" + "." + "contacts"
    requires path == "profile" + "." + "contacts" + "." + "0" + "." + "emails"
    ensures Scan(Obj([("profile", Obj([("contacts", Arr([Bruce()]))]))]), "", next, AsWritten).entries ==
      [(outer, [next]), (path, [])]
  {
    var inner := Obj([("contacts", Arr([Bruce()]))]);
    ContactsEntry("contacts", "profile" + ".", next, AsWritten);
    assert "" + "profile" + "." == "profile" + ".";
    assert ScanEntry("profile", inner, "", next, AsWritten) == Scan(inner, "profile" + ".", next, AsWritten);
  }

  // ---------------------------------------------------------------------
  // The prefix at line 113

  /** Three records deep: `{ p: { q: { r: [] } } }`. */
  function DeepExample(): Value
  {
    Obj([("p", Obj([("q", Obj([("r", Arr([]))]))]))])
  }

  /** As written, the array at p.q.r is registered under "q.r", a path at
      which the values hold nothing, and that is what a new store holds. */
  lemma PrefixDroppedAsWritten(next: nat, path: string)
    requires path == "q" + "." + "r"
    ensures Scan(DeepExample(), "", next, AsWritten).entries == [(path, [])]
    ensures Prop(InitialState(DeepExample(), next), "arrays") == Obj([(path, FieldArrayValue([]))])
    ensures Get(DeepExample(), path) == Undefined
    ensures !Registers(DeepExample(), PathToArray(path))
  {
    var r := Obj([("r", Arr([]))]);
    var q := Obj([("q", r)]);
    var e := EmptyArrayEntry("r", "q" + ".", next, AsWritten);
    assert ScanKeys(r, 1, "q" + ".", next, AsWritten) == e;
    assert ScanEntry("q", r, "p" + ".", next, AsWritten) == Scan(r, "q" + ".", next, AsWritten);
    assert ScanKeys(q, 1, "p" + ".", next, AsWritten) == Scan(r, "q" + ".", next, AsWritten);
    assert ScanEntry("p", q, "", next, AsWritten) == Scan(q, "p" + ".", next, AsWritten);
    assert Join(["q", "r"]) == path;
    PathToArrayUnique(path, ["q", "r"]);
    GetStep(DeepExample(), "q", ["r"]);
    assert FromEntries([(path, [])]) == [(path, FieldArrayValue([]))];
    InitialStateHolds(DeepExample(), next);
  }

  /** With the prefix kept, the same array is registered under "p.q.r", where
      the values hold it. */
  lemma PrefixKeptCorrected(next: nat, path: string)
    requires path == "p" + "." + "q" + "." + "r"
    ensures Scan(DeepExample(), "", next, Corrected).entries == [(path, [])]
    ensures Get(DeepExample(), path) == Arr([])
  {
    var r := Obj([("r", Arr([]))]);
    var q := Obj([("q", r)]);
    var e := EmptyArrayEntry("r", "p" + "." + "q" + ".", next, Corrected);
    assert ScanKeys(r, 1, "p" + "." + "q" + ".", next, Corrected) == e;
    assert ScanEntry("q", r, "p" + ".", next, Corrected) == Scan(r, "p" + "." + "q" + ".", next, Corrected);
    assert ScanKeys(q, 1, "p" + ".", next, Corrected) == Scan(r, "p" + "." + "q" + ".", next, Corrected);
    assert "" + "p" + "." == "p" + ".";
    assert ScanEntry("p", q, "", next, Corrected) == Scan(q, "p" + ".", next, Corrected);
    DottedPath3("p", "q", "r");
    GetStep(DeepExample(), "p", ["q", "r"]);
    GetStep(q, "q", ["r"]);
    GetStep(r, "r", []);
  }

  // ---------------------------------------------------------------------
  // Where the two rules agree

  /** No record is searched under a non-empty prefix: below the top level
      (`top` false), no key holds a record, and every array element is
      searched with the element's own prefix. */
  predicate RulesAgree(v: Value, top: bool)
    decreases v, 0
  {
    match v
    case Obj(fs) => forall i :: 0 <= i < |fs| ==> EntryAgrees(fs[i].1, top)
    case Arr(items) => forall i :: 0 <= i < |items| ==> EntryAgrees(items[i], top)
    case _ => true
  }

  predicate EntryAgrees(value: Value, top: bool)
    decreases value, 1
  {
    match value
    case Arr(items) => forall i :: 0 <= i < |items| ==> RulesAgree(items[i], false)
    case Obj(_) => top && RulesAgree(value, false)
    case _ => true
  }

  /** Where no record sits under a record or under an array element, the
      search as written and the search with the prefix kept are the same
      run. */
  lemma {:induction false} ScanAgrees(values: Value, prefix: string, next: nat)
    requires RulesAgree(values, prefix == "")
    ensures Scan(values, prefix, next, AsWritten) == Scan(values, prefix, next, Corrected)
    decreases values, 1
  {
    if IsObject(values) {
      ScanKeysAgree(values, KeyCount(values), prefix, next);
    }
  }

  lemma {:induction false} ScanKeysAgree(values: Value, n: nat, prefix: string, next: nat)
    requires IsObject(values) && n <= KeyCount(values) && RulesAgree(values, prefix == "")
    ensures ScanKeys(values, n, prefix, next, AsWritten) == ScanKeys(values, n, prefix, next, Corrected)
    decreases values, 0, n
  {
    if n > 0 {
      ScanKeysAgree(values, n - 1, prefix, next);
      var before := ScanKeys(values, n - 1, prefix, next, Corrected);
      if values.Obj? {
        ScanEntryAgrees(values.fields[n - 1].0, values.fields[n - 1].1, prefix, before.next);
      } else {
        ScanEntryAgrees(NatToString(n - 1), values.items[n - 1], prefix, before.next);
      }
    }
  }

  lemma {:induction false} ScanEntryAgrees(name: string, value: Value, prefix: string, next: nat)
    requires EntryAgrees(value, prefix == "")
    ensures ScanEntry(name, value, prefix, next, AsWritten) == ScanEntry(name, value, prefix, next, Corrected)
    decreases value, 2
  {
    match value
    case Arr(items) =>
      ScanItemsAgree(value, |items|, prefix + name, next + |items|);
    case Obj(_) =>
      assert ChildPrefix(AsWritten, prefix, name) == ChildPrefix(Corrected, prefix, name) == name + ".";
      ScanAgrees(value, name + ".", next);
    case _ =>
  }

  lemma {:induction false} ScanItemsAgree(arr: Value, n: nat, fan: string, next: nat)
    requires arr.Arr? && n <= |arr.items|
    requires forall i :: 0 <= i < |arr.items| ==> RulesAgree(arr.items[i], false)
    ensures ScanItems(arr, n, fan, next, AsWritten) == ScanItems(arr, n, fan, next, Corrected)
    decreases arr, 0, n
  {
    if n > 0 {
      ScanItemsAgree(arr, n - 1, fan, next);
      var before := ScanItems(arr, n - 1, fan, next, Corrected);
      var item := arr.items[n - 1];
      if IsObject(item) {
        var child := fan + "." + NatToString(n - 1) + ".";
        assert child != "";
        ScanAgrees(item, child, before.next);
      }
    }
  }

  /** The store's field arrays are the prefix-kept ones wherever no record
      sits under a record; this covers every recorded example. */
  lemma FindFieldArraysAgree(values: Value, next: nat)
    requires RulesAgree(values, true)
    ensures FindFieldArrays(values, next) == FindFieldArraysCorrected(values, next)
  {
    ScanAgrees(values, "", next);
  }

  /** On such values, the store registers exactly the paths `Registers`
      accepts: arrays reached through visited keys, other than an array that
      is itself an element of an array. */
  lemma FindFieldArraysAsWrittenRegisters(values: Value, next: nat, path: string)
    requires IsObject(values) && Plain(values) && RulesAgree(values, true)
    ensures HasKey(FindFieldArrays(values, next).fields, path) <==> Registers(values, PathToArray(path))
  {
    FindFieldArraysAgree(values, next);
    FindFieldArraysRegisters(values, next, path);
  }

  // ---------------------------------------------------------------------
  // findFieldArraysRecursively, as the source runs it: one shared `result`
  // array pushed to inside the loops, and a key supplier advanced per element

  class FieldArraySearch {
    /** The shared `result` array. */
    var result: seq<Entry>
    /** The next key `generateRandId` stands for. */
    var next: nat

    constructor(start: nat)
      ensures result == [] && next == start
    {
      result := [];
      next := start;
    }

    /** One identity key per call, never the same one twice. */
    method GenerateId() returns (id: nat)
      modifies this
      ensures id == old(next) && next == old(next) + 1 && result == old(result)
    {
      id := next;
      next := next + 1;
    }

    /** `value.map(() => ({ key: generateRandId() }))`, as the keys alone. */
    method GenerateIds(n: nat) returns (ids: seq<nat>)
      modifies this
      ensures ids == Range(old(next), old(next) + n) && next == old(next) + n && result == old(result)
    {
      ids := [];
      for i := 0 to n
        invariant ids == Range(old(next), old(next) + i) && next == old(next) + i && result == old(result)
      {
        var id := GenerateId();
        ids := ids + [id];
      }
    }

    /** The `for...in` loop over `values`. */
    method Recurse(values: Value, prefix: string, rule: PrefixRule)
      modifies this
      ensures result == old(result) + Scan(values, prefix, old(next), rule).entries
      ensures next == Scan(values, prefix, old(next), rule).next
      decreases values, 1
    {
      if !IsObject(values) {
        return;
      }
      ghost var start, prior := next, result;
      for k := 0 to KeyCount(values)
        invariant result == prior + ScanKeys(values, k, prefix, start, rule).entries
        invariant next == ScanKeys(values, k, prefix, start, rule).next
      {
        var name := if values.Obj? then values.fields[k].0 else NatToString(k);
        var value := if values.Obj? then values.fields[k].1 else values.items[k];
        ghost var before := ScanKeys(values, k, prefix, start, rule);
        ghost var after := ScanEntry(name, value, prefix, before.next, rule);
        ScanKeysLast(values, k, prefix, start, rule, name, value);
        Visit(name, value, prefix, rule);
        assert result == (prior + before.entries) + after.entries;
        SeqAssocEntries(prior, before.entries, after.entries);
      }
    }

    /** The loop body for one key. */
    method Visit(name: string, value: Value, prefix: string, rule: PrefixRule)
      modifies this
      ensures result == old(result) + ScanEntry(name, value, prefix, old(next), rule).entries
      ensures next == ScanEntry(name, value, prefix, old(next), rule).next
      decreases value, 2
    {
      if value.Arr? {
        var fieldArrayName := prefix + name;
        var ids := GenerateIds(|value.items|);
        result := result + [(fieldArrayName, ids)];
        VisitItems(value, fieldArrayName, rule);
      } else if value.Obj? {
        Recurse(value, ChildPrefix(rule, prefix, name), rule);
      }
    }

    /** `value.forEach`: every record or array element is searched. */
    method VisitItems(arr: Value, fieldArrayName: string, rule: PrefixRule)
      requires arr.Arr?
      modifies this
      ensures result == old(result) + ScanItems(arr, |arr.items|, fieldArrayName, old(next), rule).entries
      ensures next == ScanItems(arr, |arr.items|, fieldArrayName, old(next), rule).next
      decreases arr, 1
    {
      for index := 0 to |arr.items|
        invariant result == old(result) + ScanItems(arr, index, fieldArrayName, old(next), rule).entries
        invariant next == ScanItems(arr, index, fieldArrayName, old(next), rule).next
      {
        var v := arr.items[index];
        if IsObject(v) {
          Recurse(v, fieldArrayName + "." + NatToString(index) + ".", rule);
        }
      }
    }
  }

  /** `findFieldArrays` as run: a fresh `entries` array filled by the search,
      then `Object.fromEntries`. Returns the supplier's next key as well. */
  method RunFindFieldArrays(values: Value, start: nat, rule: PrefixRule) returns (arrays: Value, next: nat)
    ensures arrays == FindFieldArraysBy(values, start, rule)
    ensures next == Scan(values, "", start, rule).next
  {
    var search := new FieldArraySearch(start);
    search.Recurse(values, "", rule);
    assert search.result == Scan(values, "", start, rule).entries;
    arrays := Obj(FromEntries(search.result));
    next := search.next;
  }

  // ---------------------------------------------------------------------
  // The store's state and its three updaters

  /** `createFormStore`: both value slots hold the defaults, the form is
      valid with no submission, no field has metadata, and the field arrays
      are those found in the defaults. */
  function InitialState(defaults: Value, next: nat): Value
  {
    Obj([
      ("deafaultValues", defaults),
      ("values", defaults),
      ("arrays", FindFieldArrays(defaults, next)),
      ("formMeta", Obj([("state", Prim(Str("valid"))), ("submitCount", Prim(Num(0)))])),
      ("fieldMeta", Obj([]))])
  }

  /** `setValue`: `setIn` on the whole state at `values.${name}`. */
  function SetValueUpdater(state: Value, name: string, value: Value): Value
  {
    SetIn(state, "values." + name, value)
  }

  /** `startSubmit`: `setIn` on the whole state at `formMeta.state`. */
  function StartSubmitUpdater(state: Value): Value
  {
    SetIn(state, "formMeta.state", Prim(Str("submitting")))
  }

  /** `oldState.formMeta.submitCount`. */
  function SubmitCountOf(state: Value): Value
  {
    Prop(Prop(state, "formMeta"), "submitCount")
  }

  predicate IsNumber(v: Value)
  {
    v.Prim? && v.p.Num?
  }

  /** `count + 1` on a number. */
  function PlusOne(count: Value): (r: Value)
    requires IsNumber(count)
    ensures IsNumber(r) && r.p.n == count.p.n + 1
  {
    Prim(Num(count.p.n + 1))
  }

  /** `endSubmit`: `formMeta` replaced by a submitted record whose count is
      one more than before. */
  function EndSubmitUpdater(state: Value): Value
    requires IsNumber(SubmitCountOf(state))
  {
    SetIn(state, "formMeta", Obj([
      ("state", Prim(Str("submitted"))),
      ("submitCount", PlusOne(SubmitCountOf(state)))]))
  }

  /** The shape every state of the store has: a record whose `formMeta` is a
      record holding a numeric `submitCount`. */
  predicate StoreShape(state: Value)
  {
    state.Obj? && Prop(state, "formMeta").Obj? && IsNumber(SubmitCountOf(state))
  }

  /** Writing along `top.rest` on a record replaces only child `top`, by the
      write along `rest` inside it; a path with an empty segment changes nothing. */
  lemma SetUnderKey(state: Value, top: string, rest: string, value: Value)
    requires state.Obj? && top != "" && NoDot(top)
    ensures var r := SetIn(state, top + "." + rest, value);
      if "" in PathToArray(rest) then r == state
      else r == Obj(Put(state.fields, top, SetIn(Prop(state, top), rest, value)))
  {
    SplitAroundDot(top, rest);
    SplitNoDotIsSingleton(top);
    var p := PathToArray(rest);
    assert PathToArray(top + "." + rest) == [top] + p;
    if "" in p {
      assert "" in [top] + p;
      SetEmptySegment(state, [top] + p, value);
    } else {
      SetCons(state, top, p, value);
    }
  }

  /** After `setValue`, the state's values are `setIn` of the old values at
      `name`, and every other part of the state is as it was. */
  lemma SetValueOnlyValues(state: Value, name: string, value: Value, k: string)
    requires state.Obj?
    ensures SetValueUpdater(state, name, value).Obj?
    ensures Prop(SetValueUpdater(state, name, value), "values") == SetIn(Prop(state, "values"), name, value)
    ensures k != "values" ==> Prop(SetValueUpdater(state, name, value), k) == Prop(state, k)
  {
    assert "values." + name == "values" + "." + name;
    SetUnderKey(state, "values", name, value);
    var fs := state.fields;
    if "" in PathToArray(name) {
      SetEmptySegment(Prop(state, "values"), PathToArray(name), value);
    } else {
      LookupPut(fs, "values", SetIn(Prop(state, "values"), name, value), k);
    }
  }

  /** `startSubmit` marks the form as submitting and keeps the count and
      every other part of the state. */
  lemma StartSubmitMarks(state: Value, k: string)
    requires StoreShape(state)
    ensures var next := StartSubmitUpdater(state);
      StoreShape(next) &&
      Prop(Prop(next, "formMeta"), "state") == Prim(Str("submitting")) &&
      SubmitCountOf(next) == SubmitCountOf(state) &&
      (k != "formMeta" ==> Prop(next, k) == Prop(state, k))
  {
    var v := Prim(Str("submitting"));
    var meta := Prop(state, "formMeta");
    FormMetaStatePath();
    SetCons(state, "formMeta", ["state"], v);
    SetSingle(meta, "state", v);
    var meta' := Obj(Put(meta.fields, "state", v));
    var next := StartSubmitUpdater(state);
    assert next == Obj(Put(state.fields, "formMeta", meta'));
    LookupPut(state.fields, "formMeta", meta', k);
    assert Prop(next, "formMeta") == meta';
    LookupPut(meta.fields, "state", v, "submitCount");
    assert "state" != "submitCount" by {
      assert |"state"| != |"submitCount"|;
    }
  }

  /** The segments of `formMeta.state`. */
  lemma FormMetaStatePath()
    ensures PathToArray("formMeta.state") == ["formMeta", "state"]
  {
    assert Join(["formMeta", "state"]) == "formMeta.state";
    assert AllNoDot(["formMeta", "state"]);
    PathToArrayUnique("formMeta.state", ["formMeta", "state"]);
  }

  /** `endSubmit` marks the form as submitted, adds exactly one to the count,
      and keeps every other part of the state. */
  lemma EndSubmitCounts(state: Value, k: string)
    requires StoreShape(state)
    ensures var next := EndSubmitUpdater(state);
      StoreShape(next) &&
      Prop(Prop(next, "formMeta"), "state") == Prim(Str("submitted")) &&
      SubmitCountOf(next).p.n == SubmitCountOf(state).p.n + 1 &&
      (k != "formMeta" ==> Prop(next, k) == Prop(state, k))
  {
    var count := PlusOne(SubmitCountOf(state));
    var meta := Obj([("state", Prim(Str("submitted"))), ("submitCount", count)]);
    EndSubmitWrites(state);
    LookupPut(state.fields, "formMeta", meta, k);
    TwoKeyRecord(Prim(Str("submitted")), count);
  }

  /** `endSubmit` puts the new `formMeta` record into the state record. */
  lemma EndSubmitWrites(state: Value)
    requires state.Obj? && IsNumber(SubmitCountOf(state))
    ensures EndSubmitUpdater(state) == Obj(Put(state.fields, "formMeta",
      Obj([("state", Prim(Str("submitted"))), ("submitCount", PlusOne(SubmitCountOf(state)))])))
  {
    var meta := Obj([("state", Prim(Str("submitted"))), ("submitCount", PlusOne(SubmitCountOf(state)))]);
    SplitNoDotIsSingleton("formMeta");
    SetSingle(state, "formMeta", meta);
  }

  /** A `formMeta` record reads back both of its keys. */
  lemma TwoKeyRecord(mark: Value, count: Value)
    ensures var meta := Obj([("state", mark), ("submitCount", count)]);
      Prop(meta, "state") == mark && Prop(meta, "submitCount") == count
  {
    var fs := [("state", mark), ("submitCount", count)];
    assert fs[0].0 == "state" && fs[1..] == [("submitCount", count)];
    assert "state" != "submitCount" by {
      assert |"state"| != |"submitCount"|;
    }
    assert Lookup(fs, "state") == mark;
    assert Lookup(fs[1..], "submitCount") == count;
  }

  /** `setValue` keeps the shape and the submission state. */
  lemma SetValueKeepsMeta(state: Value, name: string, value: Value)
    requires StoreShape(state)
    ensures StoreShape(SetValueUpdater(state, name, value))
    ensures Prop(SetValueUpdater(state, name, value), "formMeta") == Prop(state, "formMeta")
  {
    SetValueOnlyValues(state, name, value, "formMeta");
  }

  /** The initial state has the shape, holds the defaults twice, and has a
      valid form with no submission and no field metadata. */
  lemma InitialStateHolds(defaults: Value, next: nat)
    ensures var s := InitialState(defaults, next);
      StoreShape(s) &&
      Prop(s, "deafaultValues") == defaults && Prop(s, "values") == defaults &&
      Prop(s, "arrays") == FindFieldArrays(defaults, next) &&
      Prop(Prop(s, "formMeta"), "state") == Prim(Str("valid")) && SubmitCountOf(s) == Prim(Num(0)) &&
      Prop(s, "fieldMeta") == Obj([])
  {
    var fs := InitialState(defaults, next).fields;
    var meta := Obj([("state", Prim(Str("valid"))), ("submitCount", Prim(Num(0)))]);
    var t1, t2, t3 := fs[1..], fs[2..], fs[3..];
    assert t1[1..] == t2 && t2[1..] == t3 && t3[1..] == [("fieldMeta", Obj([]))];
    assert |"deafaultValues"| == 14 && |"values"| == 6 && |"arrays"| == 6 && |"formMeta"| == 8 && |"fieldMeta"| == 9;
    assert "values" != "arrays" && "formMeta" != "fieldMeta";
    assert Lookup(fs, "deafaultValues") == defaults;
    assert Lookup(fs, "values") == defaults;
    assert Lookup(t2, "arrays") == FindFieldArrays(defaults, next);
    assert Lookup(t3, "formMeta") == meta;
    assert Lookup(t3, "fieldMeta") == Obj([]);
    assert Lookup(fs, "arrays") == Lookup(t1, "arrays") == Lookup(t2, "arrays");
    assert Lookup(fs, "formMeta") == Lookup(t2, "formMeta") == Lookup(t3, "formMeta");
    assert Lookup(fs, "fieldMeta") == Lookup(t2, "fieldMeta") == Lookup(t3, "fieldMeta");
    TwoKeyRecord(Prim(Str("valid")), Prim(Num(0)));
  }

  // ---------------------------------------------------------------------
  // The store object

  /** The store `createFormStore` returns: one mutable state that each
      operation replaces by its updater's result through `setState`. */
  class FormStore {
    var state: Value

    /** `createFormStore({ defaultValues })`, with the field-array search
        drawing its keys from `start` onwards. */
    constructor(defaults: Value, start: nat)
      ensures state == InitialState(defaults, start)
      ensures StoreShape(state)
    {
      var arrays, _ := RunFindFieldArrays(defaults, start, AsWritten);
      state := Obj([
        ("deafaultValues", defaults),
        ("values", defaults),
        ("arrays", arrays),
        ("formMeta", Obj([("state", Prim(Str("valid"))), ("submitCount", Prim(Num(0)))])),
        ("fieldMeta", Obj([]))]);
      InitialStateHolds(defaults, start);
    }

    /** `setValue(store, name, value)`. */
    method SetValue(name: string, value: Value)
      modifies this
      ensures state == SetValueUpdater(old(state), name, value)
      ensures StoreShape(old(state)) ==> StoreShape(state) && Prop(state, "formMeta") == Prop(old(state), "formMeta")
    {
      if StoreShape(state) {
        SetValueKeepsMeta(state, name, value);
      }
      state := SetValueUpdater(state, name, value);
    }

    /** `startSubmit(store)`. */
    method StartSubmit()
      modifies this
      ensures state == StartSubmitUpdater(old(state))
      ensures StoreShape(old(state)) ==> StoreShape(state) && SubmitCountOf(state) == SubmitCountOf(old(state))
    {
      if StoreShape(state) {
        StartSubmitMarks(state, "formMeta");
      }
      state := StartSubmitUpdater(state);
    }

    /** `endSubmit(store)`: the count read from the old state must be a number. */
    method EndSubmit()
      requires IsNumber(SubmitCountOf(state))
      modifies this
      ensures state == EndSubmitUpdater(old(state))
      ensures StoreShape(old(state)) ==> StoreShape(state) && SubmitCountOf(state).p.n == SubmitCountOf(old(state)).p.n + 1
    {
      if StoreShape(state) {
        EndSubmitCounts(state, "formMeta");
      }
      state := EndSubmitUpdater(state);
    }
  }
}
