/** JavaScript values as the form engine stores them: primitives, records
    with their own keys in insertion order, arrays, and `undefined`; together
    with the three property operations the engine performs on them: reading
    `v?.[key]`, assigning `target[key] = v`, and spreading `{ ...v }`. */
module JsValue {
  import opened Results
  import opened JsString

  /** Numbers are modelled as integers: the engine only counts and indexes. */
  datatype Primitive = Str(s: string) | Num(n: int) | Bool(b: bool) | Null

  datatype Value =
    | Undefined
    | Prim(p: Primitive)
    | Obj(fields: seq<(string, Value)>)
    | Arr(items: seq<Value>)

  type Fields = seq<(string, Value)>

  /** `v && typeof v === "object"`: a record or an array. */
  predicate IsObject(v: Value) {
    v.Obj? || v.Arr?
  }

  /** `v == null`: the values on which `?.` short-circuits. */
  predicate IsNullish(v: Value) {
    v.Undefined? || v == Prim(Null)
  }

  // ---------------------------------------------------------------------
  // Records

  predicate HasKey(fs: Fields, key: string) {
    fs != [] && (fs[0].0 == key || HasKey(fs[1..], key))
  }

  predicate DistinctKeys(fs: Fields) {
    fs == [] || (!HasKey(fs[1..], fs[0].0) && DistinctKeys(fs[1..]))
  }

  lemma {:induction false} HasKeyAt(fs: Fields, i: nat)
    requires i < |fs|
    ensures HasKey(fs, fs[i].0)
  {
    if i > 0 {
      assert fs[1..][i - 1] == fs[i];
      HasKeyAt(fs[1..], i - 1);
    }
  }

  /** `record[key]` for an own key, `undefined` when the key is absent. */
  function Lookup(fs: Fields, key: string): Value
  {
    if fs == [] then Undefined
    else if fs[0].0 == key then fs[0].1
    else Lookup(fs[1..], key)
  }

  /** Assigning `record[key] = v`: an existing key keeps its position, a new
      key is added at the end. */
  function Put(fs: Fields, key: string, v: Value): Fields
  {
    if fs == [] then [(key, v)]
    else if fs[0].0 == key then [(key, v)] + fs[1..]
    else [fs[0]] + Put(fs[1..], key, v)
  }

  /** After assigning a key, reading it gives the assigned value and every
      other key reads as before. */
  lemma {:induction false} LookupPut(fs: Fields, key: string, v: Value, other: string)
    ensures Lookup(Put(fs, key, v), key) == v
    ensures other != key ==> Lookup(Put(fs, key, v), other) == Lookup(fs, other)
  {
    if fs != [] && fs[0].0 != key {
      LookupPut(fs[1..], key, v, other);
    }
  }

  /** Assigning adds exactly the assigned key and keeps every key distinct. */
  lemma {:induction false} PutKeys(fs: Fields, key: string, v: Value, k: string)
    ensures HasKey(Put(fs, key, v), k) <==> HasKey(fs, k) || k == key
    ensures HasKey(fs, key) ==> |Put(fs, key, v)| == |fs|
    ensures DistinctKeys(fs) ==> DistinctKeys(Put(fs, key, v))
  {
    if fs != [] && fs[0].0 != key {
      PutKeys(fs[1..], key, v, k);
      PutKeys(fs[1..], key, v, fs[0].0);
      assert Put(fs, key, v)[1..] == Put(fs[1..], key, v);
    } else if fs != [] {
      assert Put(fs, key, v)[1..] == fs[1..];
    }
  }

  /** Writing back the value a present key already has changes nothing. */
  lemma {:induction false} PutLookupSame(fs: Fields, key: string)
    requires HasKey(fs, key)
    ensures Put(fs, key, Lookup(fs, key)) == fs
  {
    if fs[0].0 != key {
      PutLookupSame(fs[1..], key);
    }
  }

  /** With distinct keys, reading the key of entry i gives entry i's value. */
  lemma {:induction false} LookupAt(fs: Fields, i: nat)
    requires DistinctKeys(fs) && i < |fs|
    ensures Lookup(fs, fs[i].0) == fs[i].1
  {
    if i > 0 {
      assert fs[1..][i - 1] == fs[i];
      HasKeyAt(fs[1..], i - 1);
      LookupAt(fs[1..], i - 1);
    }
  }

  /** The position of a present key. */
  lemma {:induction false} KeyPosition(fs: Fields, k: string) returns (i: nat)
    requires HasKey(fs, k)
    ensures i < |fs| && fs[i].0 == k
  {
    if fs[0].0 == k {
      i := 0;
    } else {
      var j := KeyPosition(fs[1..], k);
      i := j + 1;
    }
  }

  lemma {:induction false} LookupAbsent(fs: Fields, key: string)
    requires !HasKey(fs, key)
    ensures Lookup(fs, key) == Undefined
  {
    if fs != [] {
      LookupAbsent(fs[1..], key);
    }
  }

  // ---------------------------------------------------------------------
  // Arrays

  /** `a[i] = v` on a copy of the items: replaces element i, or, past the
      end, grows the array with holes (read as `undefined`) up to i. */
  function WriteIndex(items: seq<Value>, i: nat, v: Value): (r: seq<Value>)
    ensures |r| == if i < |items| then |items| else i + 1
    ensures r[i] == v
    ensures forall j :: 0 <= j < |items| && j != i ==> r[j] == items[j]
    ensures forall j :: |items| <= j < |r| && j != i ==> r[j] == Undefined
  {
    if i < |items| then items[i := v]
    else items + seq(i - |items|, _ => Undefined) + [v]
  }

  // ---------------------------------------------------------------------
  // Property access

  /** `v?.[key]`: an own key of a record; an element or the length of an
      array or a string; `undefined` for everything else, and never a failure. */
  function Prop(v: Value, key: string): Value
  {
    match v
    case Obj(fs) => Lookup(fs, key)
    case Arr(items) =>
      if key == "length" then Prim(Num(|items|))
      else if ParseIndex(key).Some? && ParseIndex(key).value < |items| then items[ParseIndex(key).value]
      else Undefined
    case Prim(Str(s)) =>
      if key == "length" then Prim(Num(|s|))
      else if ParseIndex(key).Some? && ParseIndex(key).value < |s| then Prim(Str([s[ParseIndex(key).value]]))
      else Undefined
    case _ => Undefined
  }

  /** Only records and arrays hold records or arrays. */
  lemma PropOfNonObject(v: Value, key: string)
    requires !IsObject(v)
    ensures !IsObject(Prop(v, key))
  {
  }

  /** An array holds a record or array only under an in-range canonical index. */
  lemma PropOfArrayObject(v: Value, key: string)
    requires v.Arr? && IsObject(Prop(v, key))
    ensures ParseIndex(key).Some? && ParseIndex(key).value < |v.items|
    ensures Prop(v, key) == v.items[ParseIndex(key).value]
  {
  }

  /** `target[key] = v` on a record or array, in place: a record gets the key
      assigned; an array gets a canonical index written, of any size. Any
      other key on an array, `length` included, leaves the array as it was:
      non-index properties, the truncation or extension that a `length`
      assignment does, and its RangeError are not modelled. */
  function AssignProp(target: Value, key: string, v: Value): (r: Value)
    requires IsObject(target)
    ensures IsObject(r) && r.Arr? == target.Arr?
  {
    match target
    case Obj(fs) => Obj(Put(fs, key, v))
    case Arr(items) =>
      if ParseIndex(key).Some? then Arr(WriteIndex(items, ParseIndex(key).value, v)) else target
  }

  /** An assignment is read back under its key on a record, and under a
      canonical index on an array; other keys read as before, and an array
      keeps its length when the index was in range. */
  lemma AssignPropRead(target: Value, key: string, v: Value, other: string)
    requires IsObject(target)
    ensures (target.Obj? || ParseIndex(key).Some?) ==> Prop(AssignProp(target, key, v), key) == v
    ensures other != key && other != "length" ==> Prop(AssignProp(target, key, v), other) == Prop(target, other)
    ensures target.Arr? && ParseIndex(key).Some? && ParseIndex(key).value < |target.items| ==>
      Prop(AssignProp(target, key, v), "length") == Prop(target, "length")
  {
    if target.Obj? {
      LookupPut(target.fields, key, v, other);
    } else if ParseIndex(key).Some? && ParseIndex(other).Some? && other != key {
      if ParseIndex(key) == ParseIndex(other) {
        ParseIndexInjective(key, other);
      }
    }
  }

  /** `{ ...v }`: the own enumerable properties of v as a fresh record; a
      string spreads into its characters, other primitives and nullish
      values into nothing. */
  function SpreadFields(v: Value): Fields
  {
    match v
    case Obj(fs) => fs
    case Arr(items) => seq(|items|, i requires 0 <= i < |items| => (NatToString(i), items[i]))
    case Prim(Str(s)) => seq(|s|, i requires 0 <= i < |s| => (NatToString(i), Prim(Str([s[i]]))))
    case _ => []
  }

  // ---------------------------------------------------------------------
  // Well-formed keys

  /** Records whose keys are non-empty, dot-free and distinct, at every depth:
      then a dotted key names one path. */
  predicate Plain(v: Value)
    decreases v
  {
    match v
    case Obj(fs) =>
      DistinctKeys(fs) &&
      forall i :: 0 <= i < |fs| ==> fs[i].0 != "" && NoDot(fs[i].0) && Plain(fs[i].1)
    case Arr(items) => forall i :: 0 <= i < |items| ==> Plain(items[i])
    case _ => true
  }
}
