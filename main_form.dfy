/** lib/main.tsx: the state of a form made by `useForm` and its updaters
    (`setValue` with field metadata and effects, `setState`, `reset`), the
    top-level field-array discovery, `useFieldArray`'s `fields`, `append` and
    `remove`, the submit guard of `Form`, and the form instance that holds the
    current state and its subscribers. Identity keys come from an abstract
    supplier: the counter `next`, which each drawn key advances. */
module MainForm {
  import opened Results
  import opened JsString
  import opened JsValue
  import opened Utils
  import Store

  // ---------------------------------------------------------------------
  // The state

  datatype MetaState = Valid | Validating | Submitted | Submitting | Error

  datatype FormMeta = FormMeta(state: MetaState, submitCount: int)

  datatype FieldMeta = FieldMeta(isDirty: bool, isTouched: bool)

  /** `arrays[name].fields`, as the identity keys of the elements in order. */
  type FieldArrays = map<string, seq<nat>>

  datatype FormState = FormState(
    defaultValues: Value,
    values: Value,
    arrays: FieldArrays,
    fieldMeta: map<string, FieldMeta>,
    formMeta: FormMeta)

  // ---------------------------------------------------------------------
  // Identity keys

  /** Every key lies in [lo, hi). */
  predicate KeysIn(m: FieldArrays, lo: nat, hi: nat)
  {
    forall a, i :: a in m && 0 <= i < |m[a]| ==> lo <= m[a][i] < hi
  }

  /** No key is used twice, within one array or across arrays. */
  predicate KeysDistinct(m: FieldArrays)
  {
    forall a, b, i, j :: a in m && b in m && 0 <= i < |m[a]| && 0 <= j < |m[b]| && (a != b || i != j) ==>
      m[a][i] != m[b][j]
  }

  /** Giving `name` a run of fresh keys keeps the keys distinct. */
  lemma FreshRunKeepsDistinct(m: FieldArrays, name: string, lo: nat, next: nat, n: nat)
    requires lo <= next && KeysIn(m, lo, next) && KeysDistinct(m)
    ensures var m' := m[name := Store.Range(next, next + n)];
      KeysIn(m', lo, next + n) && KeysDistinct(m')
  {
    var m' := m[name := Store.Range(next, next + n)];
    forall a, b, i, j | a in m' && b in m' && 0 <= i < |m'[a]| && 0 <= j < |m'[b]| && (a != b || i != j)
      ensures m'[a][i] != m'[b][j]
    {
      if a != name && b != name {
        assert m'[a][i] == m[a][i] && m'[b][j] == m[b][j];
      }
    }
  }

  // ---------------------------------------------------------------------
  // findFieldArrays (top level only)

  /** The reduce over `Object.entries(values)`: an array-valued entry gets
      one fresh key per element, anything else is skipped. */
  function CollectArrays(entries: Fields, acc: FieldArrays, next: nat): (r: (FieldArrays, nat))
    ensures next <= r.1
    decreases |entries|
  {
    if entries == [] then (acc, next)
    else
      var step := Register(entries[0], acc, next);
      CollectArrays(entries[1..], step.0, step.1)
  }

  /** The reduce callback on one entry `[name, value]`. */
  function Register(entry: (string, Value), acc: FieldArrays, next: nat): (r: (FieldArrays, nat))
    ensures next <= r.1
  {
    if entry.1.Arr? then
      (acc[entry.0 := Store.Range(next, next + |entry.1.items|)], next + |entry.1.items|)
    else (acc, next)
  }

  /** `findFieldArrays(values)`, with the supplier's next key after it.
      `Object.entries` throws on `undefined` and `null`. */
  function FindFieldArrays(values: Value, next: nat): (FieldArrays, nat)
    requires !IsNullish(values)
  {
    CollectArrays(SpreadFields(values), map[], next)
  }

  /** A name is registered exactly when some entry of that name holds an array. */
  lemma {:induction false} CollectArraysNames(entries: Fields, acc: FieldArrays, next: nat, name: string)
    ensures name in CollectArrays(entries, acc, next).0 <==>
      name in acc || exists i :: 0 <= i < |entries| && entries[i].0 == name && entries[i].1.Arr?
    decreases |entries|
  {
    if entries != [] {
      var step := Register(entries[0], acc, next);
      CollectArraysNames(entries[1..], step.0, step.1, name);
      if exists i :: 0 <= i < |entries[1..]| && entries[1..][i].0 == name && entries[1..][i].1.Arr? {
        var i :| 0 <= i < |entries[1..]| && entries[1..][i].0 == name && entries[1..][i].1.Arr?;
        assert entries[i + 1] == entries[1..][i];
      }
      if exists i :: 0 <= i < |entries| && entries[i].0 == name && entries[i].1.Arr? {
        var i :| 0 <= i < |entries| && entries[i].0 == name && entries[i].1.Arr?;
        if i > 0 {
          assert entries[1..][i - 1] == entries[i];
        }
      }
    }
  }

  /** A name no later entry mentions keeps its keys. */
  lemma {:induction false} CollectArraysKeeps(entries: Fields, acc: FieldArrays, next: nat, name: string)
    requires name in acc && !HasKey(entries, name)
    ensures name in CollectArrays(entries, acc, next).0
    ensures CollectArrays(entries, acc, next).0[name] == acc[name]
    decreases |entries|
  {
    if entries != [] {
      var step := Register(entries[0], acc, next);
      CollectArraysKeeps(entries[1..], step.0, step.1, name);
    }
  }

  /** With distinct entry names, each array gets one key per element. */
  lemma {:induction false} CollectArraysLengths(entries: Fields, acc: FieldArrays, next: nat, i: nat)
    requires DistinctKeys(entries) && i < |entries| && entries[i].1.Arr?
    ensures entries[i].0 in CollectArrays(entries, acc, next).0
    ensures |CollectArrays(entries, acc, next).0[entries[i].0]| == |entries[i].1.items|
    decreases |entries|
  {
    var step := Register(entries[0], acc, next);
    if i == 0 {
      CollectArraysKeeps(entries[1..], step.0, step.1, entries[0].0);
    } else {
      assert entries[1..][i - 1] == entries[i];
      CollectArraysLengths(entries[1..], step.0, step.1, i - 1);
    }
  }

  /** The keys drawn are fresh: within the run of the supplier and distinct. */
  lemma {:induction false} CollectArraysFresh(entries: Fields, acc: FieldArrays, lo: nat, next: nat)
    requires lo <= next && KeysIn(acc, lo, next) && KeysDistinct(acc)
    ensures var r := CollectArrays(entries, acc, next);
      KeysIn(r.0, lo, r.1) && KeysDistinct(r.0)
    decreases |entries|
  {
    if entries != [] {
      if entries[0].1.Arr? {
        FreshRunKeepsDistinct(acc, entries[0].0, lo, next, |entries[0].1.items|);
      }
      var step := Register(entries[0], acc, next);
      CollectArraysFresh(entries[1..], step.0, lo, step.1);
    }
  }

  /** On a record, `findFieldArrays` registers exactly its array-valued keys,
      each with one key per element, and the keys are fresh and distinct. */
  lemma FindFieldArraysTopLevel(fs: Fields, next: nat, name: string)
    requires DistinctKeys(fs)
    ensures var r := FindFieldArrays(Obj(fs), next);
      (name in r.0 <==> HasKey(fs, name) && Lookup(fs, name).Arr?) &&
      (name in r.0 ==> |r.0[name]| == |Lookup(fs, name).items|) &&
      KeysIn(r.0, next, r.1) && KeysDistinct(r.0)
  {
    CollectArraysNames(fs, map[], next, name);
    CollectArraysFresh(fs, map[], next, next);
    if exists i :: 0 <= i < |fs| && fs[i].0 == name && fs[i].1.Arr? {
      var i :| 0 <= i < |fs| && fs[i].0 == name && fs[i].1.Arr?;
      LookupAt(fs, i);
      HasKeyAt(fs, i);
      CollectArraysLengths(fs, map[], next, i);
    }
    if HasKey(fs, name) && Lookup(fs, name).Arr? {
      var i := KeyPosition(fs, name);
      LookupAt(fs, i);
    }
  }

  /** The state `useForm` starts from, and the supplier's next key. */
  function InitialState(defaults: Value, next: nat): (FormState, nat)
    requires !IsNullish(defaults)
  {
    var found := FindFieldArrays(defaults, next);
    (FormState(defaults, defaults, found.0, map[], FormMeta(Valid, 0)), found.1)
  }

  // ---------------------------------------------------------------------
  // setValue

  /** One `setValue(n, v)` an effect makes: a write without metadata. */
  type Write = (string, Value)

  /** A field's effect, seen through what it does: given the values after
      the field's own write, the writes it makes, in order. */
  type Effect = Value -> seq<Write>

  /** The writes done in turn by `set` on the draft values; the first that
      throws aborts the update. */
  function ApplyWrites(values: Value, writes: seq<Write>): Result<Value>
    decreases |writes|
  {
    if writes == [] then Ok(values)
    else
      var first := Set(values, writes[0].0, writes[0].1);
      if first.Err? then Err(first.error) else ApplyWrites(first.value, writes[1..])
  }

  /** Writes done in two batches are the writes done in one. */
  lemma {:induction false} ApplyWritesAppend(values: Value, w1: seq<Write>, w2: seq<Write>)
    ensures ApplyWrites(values, w1 + w2) ==
      if ApplyWrites(values, w1).Err? then ApplyWrites(values, w1) else ApplyWrites(ApplyWrites(values, w1).value, w2)
    decreases |w1|
  {
    if w1 == [] {
      assert w1 + w2 == w2;
    } else {
      assert (w1 + w2)[0] == w1[0] && (w1 + w2)[1..] == w1[1..] + w2;
      var first := Set(values, w1[0].0, w1[0].1);
      if first.Ok? {
        ApplyWritesAppend(first.value, w1[1..], w2);
      }
    }
  }

  /** `state.fieldMeta[name] ?? { isDirty: false, isTouched: false }`. */
  function MetaOf(state: FormState, name: string): FieldMeta
  {
    if name in state.fieldMeta then state.fieldMeta[name] else FieldMeta(false, false)
  }

  /** `setValue(name, value, options)`: the field is dirty when the value
      differs from the default at its path; it is touched as the option says,
      or as before. The value is written with `set`, the metadata only when it
      changed, and then the field's effect, if any, makes its writes. A
      throwing `set` leaves the state as it was. */
  function SetValueUpdater(state: FormState, effects: map<string, Effect>, name: string, value: Value,
                    isTouched: Option<bool>): Result<FormState>
  {
    var current := MetaOf(state, name);
    var isDirty := value != Get(state.defaultValues, name);
    var touched := isTouched.GetOr(current.isTouched);
    var written := Set(state.values, name, value);
    if written.Err? then Err(written.error)
    else
      var fieldMeta :=
        if current.isDirty != isDirty || current.isTouched != touched
        then state.fieldMeta[name := FieldMeta(isDirty, touched)]
        else state.fieldMeta;
      var values := if name in effects then ApplyWrites(written.value, effects[name](written.value)) else Ok(written.value);
      if values.Err? then Err(values.error)
      else Ok(state.(values := values.value, fieldMeta := fieldMeta))
  }

  /** After `setValue`, the field's metadata is its dirtiness against the
      default and its touched flag, every other field's metadata is as it
      was, an unchanged metadata is not written, and the defaults, arrays and
      form metadata are kept. */
  lemma SetValueMeta(state: FormState, effects: map<string, Effect>, name: string, value: Value,
                     isTouched: Option<bool>, other: string)
    requires SetValueUpdater(state, effects, name, value, isTouched).Ok?
    ensures var r := SetValueUpdater(state, effects, name, value, isTouched).value;
      MetaOf(r, name) == FieldMeta(value != Get(state.defaultValues, name), isTouched.GetOr(MetaOf(state, name).isTouched)) &&
      (other != name ==> MetaOf(r, other) == MetaOf(state, other) && (other in r.fieldMeta <==> other in state.fieldMeta)) &&
      (MetaOf(r, name) == MetaOf(state, name) ==> r.fieldMeta == state.fieldMeta) &&
      r.defaultValues == state.defaultValues && r.arrays == state.arrays && r.formMeta == state.formMeta
  {
  }

  /** Without an effect, `setValue` throws exactly when the path's last
      segment is non-empty and the container its other segments lead to is
      not an object; otherwise every path that parts ways with the field reads
      as before, and an empty last segment writes nothing. */
  lemma SetValueNoEffect(state: FormState, effects: map<string, Effect>, name: string, value: Value,
                         isTouched: Option<bool>, q: seq<string>)
    requires name !in effects
    ensures var r := SetValueUpdater(state, effects, name, value, isTouched);
      var segs := PathToArray(name);
      var parent := GetByPathArray(state.values, segs[..|segs| - 1]);
      (r.Ok? <==> segs[|segs| - 1] == "" || IsObject(parent)) &&
      (r.Ok? && Diverges(segs, q) ==> GetByPathArray(r.value.values, q) == GetByPathArray(state.values, q)) &&
      (segs[|segs| - 1] == "" ==> r.Ok? && r.value.values == state.values)
  {
    var segs := PathToArray(name);
    var head := segs[..|segs| - 1];
    assert (if |head| > 0 then GetByPathArray(state.values, head) else state.values) == GetByPathArray(state.values, head);
    if Set(state.values, name, value).Ok? && Diverges(segs, q) {
      SetChangesOnlySlot(state.values, name, value, q);
    }
  }

  /** With an effect, `setValue` is the field's own `set` followed by the
      effect's writes, the effect seeing the values with the field written:
      a throwing `set` throws, and otherwise the update succeeds exactly when
      that run of writes does, and its values are the run's result. */
  lemma SetValueWithEffect(state: FormState, effects: map<string, Effect>, name: string, value: Value,
                           isTouched: Option<bool>)
    requires name in effects
    ensures var r := SetValueUpdater(state, effects, name, value, isTouched);
      var w := Set(state.values, name, value);
      (w.Err? ==> r.Err?) &&
      (w.Ok? ==>
        var run := ApplyWrites(state.values, [(name, value)] + effects[name](w.value));
        (r.Ok? <==> run.Ok?) && (r.Ok? ==> r.value.values == run.value))
  {
    var w := Set(state.values, name, value);
    if w.Ok? {
      var writes := effects[name](w.value);
      ApplyWritesAppend(state.values, [(name, value)], writes);
      assert ApplyWrites(state.values, [(name, value)]) == ApplyWrites(w.value, []);
    }
  }

  /** Writes whose paths all part ways with q leave what q reads unchanged. */
  lemma {:induction false} ApplyWritesFrame(values: Value, writes: seq<Write>, q: seq<string>)
    requires ApplyWrites(values, writes).Ok?
    requires forall i :: 0 <= i < |writes| ==> Diverges(PathToArray(writes[i].0), q)
    ensures GetByPathArray(ApplyWrites(values, writes).value, q) == GetByPathArray(values, q)
    decreases |writes|
  {
    if writes != [] {
      var first := Set(values, writes[0].0, writes[0].1);
      SetChangesOnlySlot(values, writes[0].0, writes[0].1, q);
      ApplyWritesFrame(first.value, writes[1..], q);
    }
  }

  /** With an effect whose writes all part ways with the field, a successful
      `setValue` still reads the value back under the name. */
  lemma SetValueEffectReadsBack(state: FormState, effects: map<string, Effect>, name: string, value: Value,
                                isTouched: Option<bool>)
    requires SetValueUpdater(state, effects, name, value, isTouched).Ok? && name in effects
    requires var segs := PathToArray(name);
      var target := GetByPathArray(state.values, segs[..|segs| - 1]);
      segs[|segs| - 1] != "" && (target.Obj? || ParseIndex(segs[|segs| - 1]).Some?)
    requires var writes := effects[name](Set(state.values, name, value).value);
      forall i :: 0 <= i < |writes| ==> Diverges(PathToArray(writes[i].0), PathToArray(name))
    ensures Get(SetValueUpdater(state, effects, name, value, isTouched).value.values, name) == value
  {
    var w := Set(state.values, name, value).value;
    SetReadsBack(state.values, name, value);
    ApplyWritesFrame(w, effects[name](w), PathToArray(name));
  }

  /** Without an effect, a successful `setValue` reads back under the name. */
  lemma SetValueReadsBack(state: FormState, effects: map<string, Effect>, name: string, value: Value,
                          isTouched: Option<bool>)
    requires SetValueUpdater(state, effects, name, value, isTouched).Ok? && name !in effects
    requires var segs := PathToArray(name);
      var target := GetByPathArray(state.values, segs[..|segs| - 1]);
      segs[|segs| - 1] != "" && (target.Obj? || ParseIndex(segs[|segs| - 1]).Some?)
    ensures Get(SetValueUpdater(state, effects, name, value, isTouched).value.values, name) == value
  {
    SetReadsBack(state.values, name, value);
  }

  /** Writing a field back to its default makes it clean again, and without
      the option it stays as touched as it was. */
  lemma {:induction false} SetValueBackToDefault(state: FormState, effects: map<string, Effect>, name: string,
                                                  value: Value, isTouched: Option<bool>)
    requires SetValueUpdater(state, effects, name, value, isTouched).Ok?
    requires var s1 := SetValueUpdater(state, effects, name, value, isTouched).value;
      SetValueUpdater(s1, effects, name, Get(state.defaultValues, name), None).Ok?
    ensures var s1 := SetValueUpdater(state, effects, name, value, isTouched).value;
      var s2 := SetValueUpdater(s1, effects, name, Get(state.defaultValues, name), None).value;
      MetaOf(s2, name) == FieldMeta(false, isTouched.GetOr(MetaOf(state, name).isTouched))
  {
    var s1 := SetValueUpdater(state, effects, name, value, isTouched).value;
    SetValueMeta(state, effects, name, value, isTouched, name);
    SetValueMeta(s1, effects, name, Get(state.defaultValues, name), None, name);
  }

  // ---------------------------------------------------------------------
  // setState

  /** `setState(metaState)`: the new state, and one more submission when
      the form enters `submitted` from another state. */
  function SetStateUpdater(state: FormState, metaState: MetaState): FormState
  {
    var entering := metaState == Submitted && state.formMeta.state != Submitted;
    state.(formMeta := FormMeta(metaState, state.formMeta.submitCount + if entering then 1 else 0))
  }

  /** The states a run of `setState` calls passes through, in turn. */
  function RunStates(state: FormState, states: seq<MetaState>): FormState
    decreases |states|
  {
    if states == [] then state else RunStates(SetStateUpdater(state, states[0]), states[1..])
  }

  /** How often a run of states, starting from `from`, enters `submitted`:
      the positions holding `submitted` whose predecessor does not. */
  function Entries(from: MetaState, states: seq<MetaState>): nat
    decreases |states|
  {
    if states == [] then 0
    else
      var last := |states| - 1;
      var before := if last == 0 then from else states[last - 1];
      Entries(from, states[..last]) + if states[last] == Submitted && before != Submitted then 1 else 0
  }

  /** Setting the same state twice is setting it once. */
  lemma SetStateIdempotent(state: FormState, metaState: MetaState)
    ensures SetStateUpdater(SetStateUpdater(state, metaState), metaState) == SetStateUpdater(state, metaState)
  {
  }

  /** Over any run of `setState` calls the form ends in the last state, the
      count grows by the number of entries into `submitted`, and nothing
      else changes. */
  lemma {:induction false} RunStatesCounts(state: FormState, states: seq<MetaState>)
    ensures var r := RunStates(state, states);
      r.formMeta.submitCount == state.formMeta.submitCount + Entries(state.formMeta.state, states) &&
      r.formMeta.state == (if states == [] then state.formMeta.state else states[|states| - 1]) &&
      r.(formMeta := state.formMeta) == state
    decreases |states|
  {
    if states != [] {
      var last := |states| - 1;
      RunStatesCounts(state, states[..last]);
      RunStatesSnoc(state, states[..last], states[last]);
      assert states[..last] + [states[last]] == states;
    }
  }

  /** A run followed by one more call. */
  lemma {:induction false} RunStatesSnoc(state: FormState, states: seq<MetaState>, m: MetaState)
    ensures RunStates(state, states + [m]) == SetStateUpdater(RunStates(state, states), m)
    decreases |states|
  {
    if states == [] {
      assert [] + [m] == [m];
    } else {
      assert (states + [m])[1..] == states[1..] + [m];
      RunStatesSnoc(SetStateUpdater(state, states[0]), states[1..], m);
    }
  }

  // ---------------------------------------------------------------------
  // reset

  /** `reset(values)`: values and defaults become the argument, or the old
      defaults when it is `undefined` or `null`; metadata is cleared, the
      form is valid again with its count kept, and the arrays are found
      afresh. */
  function ResetState(state: FormState, values: Value, next: nat): (FormState, nat)
    requires !IsNullish(state.defaultValues)
  {
    var defaults := if IsNullish(values) then state.defaultValues else values;
    var found := FindFieldArrays(defaults, next);
    (FormState(defaults, defaults, found.0, map[], FormMeta(Valid, state.formMeta.submitCount)), found.1)
  }

  /** After `reset`, every field is clean and untouched, the values equal the
      defaults, the count is kept, and the keys drawn are fresh. */
  lemma ResetClears(state: FormState, values: Value, next: nat, name: string)
    requires !IsNullish(state.defaultValues)
    ensures var r := ResetState(state, values, next);
      MetaOf(r.0, name) == FieldMeta(false, false) &&
      r.0.values == r.0.defaultValues == (if IsNullish(values) then state.defaultValues else values) &&
      !IsNullish(r.0.defaultValues) &&
      r.0.formMeta == FormMeta(Valid, state.formMeta.submitCount) &&
      next <= r.1 && KeysIn(r.0.arrays, next, r.1) && KeysDistinct(r.0.arrays)
  {
    var defaults := if IsNullish(values) then state.defaultValues else values;
    CollectArraysFresh(SpreadFields(defaults), map[], next, next);
  }

  /** A second `reset` without argument keeps what the first one set. */
  lemma ResetTwice(state: FormState, values: Value, next: nat)
    requires !IsNullish(state.defaultValues)
    ensures var r1 := ResetState(state, values, next);
      var r2 := ResetState(r1.0, Undefined, r1.1);
      r2.0.(arrays := r1.0.arrays) == r1.0
  {
  }

  // ---------------------------------------------------------------------
  // useFieldArray

  /** The start `splice(index, 1)` resolves to: a negative index counts from
      the end, and both ends are clamped. */
  function SpliceStart(len: nat, index: int): (k: nat)
    ensures k <= len
  {
    if index < 0 then (if len + index < 0 then 0 else len + index)
    else if index > len then len
    else index
  }

  /** `splice(index, 1)`: removes the element at the resolved start, if any. */
  function SpliceOne<T>(s: seq<T>, index: int): seq<T>
  {
    var k := SpliceStart(|s|, index);
    if k < |s| then s[..k] + s[k + 1..] else s
  }

  /** Where element i of a spliced sequence came from. */
  function SpliceSource(len: nat, index: int, i: nat): nat
  {
    if i < SpliceStart(len, index) then i else i + 1
  }

  /** `splice` removes one element when its start is in range and none
      otherwise; the elements left keep their order. */
  lemma SpliceOneKeepsOrder<T>(s: seq<T>, index: int)
    ensures var r := SpliceOne(s, index);
      |r| == (if SpliceStart(|s|, index) < |s| then |s| - 1 else |s|) &&
      forall i :: 0 <= i < |r| ==> SpliceSource(|s|, index, i) < |s| && r[i] == s[SpliceSource(|s|, index, i)]
  {
  }

  /** `fields`: for each key of `arrays[name]`, the key and the field name
      `${name}.${idx}`; no fields when the array is not registered. */
  datatype FieldItem = FieldItem(key: nat, name: string)

  function Fields(state: FormState, name: string): seq<FieldItem>
  {
    if name in state.arrays then
      var keys := state.arrays[name];
      seq(|keys|, i requires 0 <= i < |keys| => FieldItem(keys[i], name + "." + NatToString(i)))
    else []
  }

  /** The values array and the key list of `name` are in step: the values
      hold an array under `name`, registered with one key per element. */
  predicate InStep(state: FormState, name: string)
  {
    Prop(state.values, name).Arr? && name in state.arrays &&
    |state.arrays[name]| == |Prop(state.values, name).items|
  }

  /** The i-th field's name addresses the i-th element of the array, for a
      dot-free array name. */
  lemma FieldNameAddressesElement(state: FormState, name: string, i: nat)
    requires InStep(state, name) && name != "" && NoDot(name) && i < |state.arrays[name]|
    ensures |Fields(state, name)| == |state.arrays[name]|
    ensures Fields(state, name)[i].key == state.arrays[name][i]
    ensures Get(state.values, Fields(state, name)[i].name) == Prop(state.values, name).items[i]
  {
    var idx := NatToString(i);
    NatToStringIsIndex(i);
    var path := name + "." + idx;
    assert Join([name, idx]) == path by {
      assert [name, idx][1..] == [idx];
    }
    assert AllNoDot([name, idx]);
    PathToArrayUnique(path, [name, idx]);
    GetStep(state.values, name, [idx]);
    GetStep(Prop(state.values, name), idx, []);
  }

  /** `append(value)`: pushes onto `values[name]` (a TypeError when that is
      not an array) and, when `arrays[name]` exists, pushes a freshly drawn
      key onto its fields. */
  function AppendUpdater(state: FormState, name: string, value: Value, next: nat): Result<(FormState, nat)>
  {
    var items := Prop(state.values, name);
    if !items.Arr? then Err(TypeError)
    else
      assert IsObject(state.values) by {
        if !IsObject(state.values) { PropOfNonObject(state.values, name); }
      }
      var values := AssignProp(state.values, name, Arr(items.items + [value]));
      if name in state.arrays then
        Ok((state.(values := values, arrays := state.arrays[name := state.arrays[name] + [next]]), next + 1))
      else Ok((state.(values := values), next))
  }

  /** `remove(index)`: splices the element out of `values[name]` (a TypeError
      when that is not an array) and, when registered, out of its fields. */
  function RemoveUpdater(state: FormState, name: string, index: int): Result<FormState>
  {
    var items := Prop(state.values, name);
    if !items.Arr? then Err(TypeError)
    else
      assert IsObject(state.values) by {
        if !IsObject(state.values) { PropOfNonObject(state.values, name); }
      }
      var values := AssignProp(state.values, name, Arr(SpliceOne(items.items, index)));
      var arrays := if name in state.arrays then state.arrays[name := SpliceOne(state.arrays[name], index)] else state.arrays;
      Ok(state.(values := values, arrays := arrays))
  }

  /** Writing back the array under `name` reads back there and leaves every
      other key but `length` as it was. */
  lemma ReplaceArray(values: Value, name: string, newItems: seq<Value>, other: string)
    requires Prop(values, name).Arr?
    ensures IsObject(values)
    ensures Prop(AssignProp(values, name, Arr(newItems)), name) == Arr(newItems)
    ensures other != name && other != "length" ==>
      Prop(AssignProp(values, name, Arr(newItems)), other) == Prop(values, other)
  {
    if !IsObject(values) { PropOfNonObject(values, name); }
    if values.Arr? { PropOfArrayObject(values, name); }
    AssignPropRead(values, name, Arr(newItems), other);
  }

  /** `append` fails exactly when `values[name]` is not an array; otherwise
      the array gains the value at its end, a registered array gains the key
      drawn, nothing else changes, and the two stay in step. */
  lemma AppendPushes(state: FormState, name: string, value: Value, next: nat, other: string)
    ensures AppendUpdater(state, name, value, next).Ok? <==> Prop(state.values, name).Arr?
    ensures AppendUpdater(state, name, value, next).Ok? ==>
      var (r, next') := AppendUpdater(state, name, value, next).value;
      Prop(r.values, name) == Arr(Prop(state.values, name).items + [value]) &&
      (other != name && other != "length" ==> Prop(r.values, other) == Prop(state.values, other)) &&
      (name in state.arrays ==> r.arrays == state.arrays[name := state.arrays[name] + [next]] && next' == next + 1) &&
      (name !in state.arrays ==> r.arrays == state.arrays && next' == next) &&
      (InStep(state, name) ==> InStep(r, name)) &&
      r.defaultValues == state.defaultValues && r.fieldMeta == state.fieldMeta && r.formMeta == state.formMeta
  {
    if Prop(state.values, name).Arr? {
      ReplaceArray(state.values, name, Prop(state.values, name).items + [value], other);
    }
  }

  /** `remove` fails exactly when `values[name]` is not an array; otherwise
      the same position leaves the array and its keys, the rest keep their
      order, nothing else changes, and the two stay in step. */
  lemma RemoveSplices(state: FormState, name: string, index: int, other: string)
    ensures RemoveUpdater(state, name, index).Ok? <==> Prop(state.values, name).Arr?
    ensures RemoveUpdater(state, name, index).Ok? ==>
      var r := RemoveUpdater(state, name, index).value;
      Prop(r.values, name) == Arr(SpliceOne(Prop(state.values, name).items, index)) &&
      (other != name && other != "length" ==> Prop(r.values, other) == Prop(state.values, other)) &&
      (name in state.arrays ==> r.arrays == state.arrays[name := SpliceOne(state.arrays[name], index)]) &&
      (name !in state.arrays ==> r.arrays == state.arrays) &&
      (InStep(state, name) ==> InStep(r, name)) &&
      r.defaultValues == state.defaultValues && r.fieldMeta == state.fieldMeta && r.formMeta == state.formMeta
  {
    if Prop(state.values, name).Arr? {
      var items := Prop(state.values, name).items;
      ReplaceArray(state.values, name, SpliceOne(items, index), other);
      SpliceOneKeepsOrder(items, index);
      if name in state.arrays {
        SpliceOneKeepsOrder(state.arrays[name], index);
      }
    }
  }

  /** In step, element i and key i after `remove` both come from the same
      position before it: values and keys stay paired. */
  lemma RemoveKeepsPairs(state: FormState, name: string, index: int, i: nat)
    requires InStep(state, name)
    ensures RemoveUpdater(state, name, index).Ok?
    ensures var r := RemoveUpdater(state, name, index).value;
      var len := |state.arrays[name]|;
      InStep(r, name) &&
      (i < |r.arrays[name]| ==>
        Prop(r.values, name).items[i] == Prop(state.values, name).items[SpliceSource(len, index, i)] &&
        r.arrays[name][i] == state.arrays[name][SpliceSource(len, index, i)])
  {
    RemoveSplices(state, name, index, name);
    SpliceOneKeepsOrder(Prop(state.values, name).items, index);
    SpliceOneKeepsOrder(state.arrays[name], index);
  }

  /** Pushing a freshly drawn key keeps the keys distinct. */
  lemma PushKeepsDistinct(m: FieldArrays, name: string, lo: nat, next: nat)
    requires name in m && lo <= next && KeysIn(m, lo, next) && KeysDistinct(m)
    ensures var m' := m[name := m[name] + [next]];
      KeysIn(m', lo, next + 1) && KeysDistinct(m')
  {
    var m' := m[name := m[name] + [next]];
    forall a, i | a in m' && 0 <= i < |m'[a]| ensures lo <= m'[a][i] < next + 1 {
      if a == name && i < |m[name]| {
        assert m'[a][i] == m[name][i];
      }
    }
    forall a, b, i, j | a in m' && b in m' && 0 <= i < |m'[a]| && 0 <= j < |m'[b]| && (a != b || i != j)
      ensures m'[a][i] != m'[b][j]
    {
      var ai := if a == name && i == |m[name]| then next else m[a][i];
      var bj := if b == name && j == |m[name]| then next else m[b][j];
      assert m'[a][i] == ai && m'[b][j] == bj;
    }
  }

  /** Splicing a key out keeps the keys distinct. */
  lemma SpliceKeepsDistinct(m: FieldArrays, name: string, index: int, lo: nat, hi: nat)
    requires name in m && KeysIn(m, lo, hi) && KeysDistinct(m)
    ensures var m' := m[name := SpliceOne(m[name], index)];
      KeysIn(m', lo, hi) && KeysDistinct(m')
  {
    var m' := m[name := SpliceOne(m[name], index)];
    var len := |m[name]|;
    SpliceOneKeepsOrder(m[name], index);
    forall a, i | a in m' && 0 <= i < |m'[a]| ensures lo <= m'[a][i] < hi {
      if a == name {
        assert m'[a][i] == m[name][SpliceSource(len, index, i)];
      }
    }
    forall a, b, i, j | a in m' && b in m' && 0 <= i < |m'[a]| && 0 <= j < |m'[b]| && (a != b || i != j)
      ensures m'[a][i] != m'[b][j]
    {
      var i' := if a == name then SpliceSource(len, index, i) else i;
      var j' := if b == name then SpliceSource(len, index, j) else j;
      assert m'[a][i] == m[a][i'] && m'[b][j] == m[b][j'];
    }
  }

  // ---------------------------------------------------------------------
  // Form's submit handler

  /** The guard of `Form`'s submit handler: a form already submitted or being
      submitted ignores the event; otherwise it becomes `submitting` and its
      values go to `onSubmit`. */
  function SubmitGuard(state: FormState): (FormState, Option<Value>)
  {
    if state.formMeta.state == Submitted || state.formMeta.state == Submitting then (state, None)
    else (SetStateUpdater(state, Submitting), Some(state.values))
  }

  /** A submission goes out exactly when the form is neither submitted nor
      submitting, carries the values, leaves the form `submitting` with its
      count kept, and a second submit right after it is ignored. */
  lemma HandleSubmitOnce(state: FormState)
    ensures var (s1, sent) := SubmitGuard(state);
      (sent.Some? <==> state.formMeta.state != Submitted && state.formMeta.state != Submitting) &&
      (sent.Some? ==> sent.value == state.values && s1.formMeta == FormMeta(Submitting, state.formMeta.submitCount)) &&
      (sent.None? ==> s1 == state) &&
      s1.(formMeta := state.formMeta) == state &&
      SubmitGuard(s1).1.None?
  {
  }

  // ---------------------------------------------------------------------
  // The form instance

  /** A subscriber, known by its identity. */
  type Listener = nat

  /** What `useForm` keeps across renders: the current state (`stateRef`),
      the subscribers (`subscribersRef`) and the effects, with the key
      supplier. `notified` records, for each published state, the
      subscribers that were called. */
  class FormInstance {
    var state: FormState
    var nextKey: nat
    var subscribers: set<Listener>
    var notified: seq<set<Listener>>
    const effects: map<string, Effect>

    /** Defaults are present and every identity key is distinct and was
        drawn from the supplier before `nextKey`. */
    predicate Valid()
      reads this
    {
      !IsNullish(state.defaultValues) && KeysIn(state.arrays, 0, nextKey) && KeysDistinct(state.arrays)
    }

    constructor(defaults: Value, effects: map<string, Effect>, start: nat)
      requires !IsNullish(defaults)
      ensures (state, nextKey) == InitialState(defaults, start)
      ensures subscribers == {} && notified == [] && this.effects == effects
      ensures Valid()
    {
      var found := FindFieldArrays(defaults, start);
      CollectArraysFresh(SpreadFields(defaults), map[], start, start);
      state := FormState(defaults, defaults, found.0, map[], FormMeta(MetaState.Valid, 0));
      nextKey := found.1;
      subscribers := {};
      notified := [];
      this.effects := effects;
    }

    /** `store.subscribe(listener)`. */
    method Subscribe(listener: Listener)
      modifies this
      ensures subscribers == old(subscribers) + {listener}
      ensures state == old(state) && nextKey == old(nextKey) && notified == old(notified)
    {
      subscribers := subscribers + {listener};
    }

    /** The function `subscribe` returns: removes the listener. */
    method Unsubscribe(listener: Listener)
      modifies this
      ensures subscribers == old(subscribers) - {listener}
      ensures state == old(state) && nextKey == old(nextKey) && notified == old(notified)
    {
      subscribers := subscribers - {listener};
    }

    /** `publishState`: the state is replaced and every current subscriber
        is called. */
    method Publish(next: FormState)
      modifies this
      ensures state == next && notified == old(notified) + [subscribers]
      ensures subscribers == old(subscribers) && nextKey == old(nextKey)
    {
      state := next;
      notified := notified + [subscribers];
    }

    /** `setValue(name, value, options)` through `updateState`: a throwing
        update publishes nothing. */
    method SetValue(name: string, value: Value, isTouched: Option<bool>) returns (ok: bool)
      requires Valid()
      modifies this
      ensures ok == SetValueUpdater(old(state), effects, name, value, isTouched).Ok?
      ensures ok ==> state == SetValueUpdater(old(state), effects, name, value, isTouched).value
      ensures ok ==> notified == old(notified) + [subscribers]
      ensures !ok ==> state == old(state) && notified == old(notified)
      ensures subscribers == old(subscribers) && nextKey == old(nextKey) && Valid()
    {
      var r := SetValueUpdater(state, effects, name, value, isTouched);
      ok := r.Ok?;
      if ok {
        SetValueMeta(state, effects, name, value, isTouched, name);
        Publish(r.value);
      }
    }

    /** `setState(metaState)`. */
    method SetState(metaState: MetaState)
      requires Valid()
      modifies this
      ensures state == SetStateUpdater(old(state), metaState) && notified == old(notified) + [subscribers]
      ensures subscribers == old(subscribers) && nextKey == old(nextKey) && Valid()
    {
      Publish(SetStateUpdater(state, metaState));
    }

    /** `reset(values)`, with `Undefined` for a call without argument. */
    method Reset(values: Value)
      requires Valid()
      modifies this
      ensures (state, nextKey) == ResetState(old(state), values, old(nextKey))
      ensures notified == old(notified) + [subscribers] && subscribers == old(subscribers) && Valid()
    {
      var r := ResetState(state, values, nextKey);
      ResetClears(state, values, nextKey, "");
      Publish(r.0);
      nextKey := r.1;
    }

    /** `useFieldArray(name).append(value)`. */
    method Append(name: string, value: Value) returns (ok: bool)
      requires Valid()
      modifies this
      ensures ok == AppendUpdater(old(state), name, value, old(nextKey)).Ok?
      ensures ok ==> (state, nextKey) == AppendUpdater(old(state), name, value, old(nextKey)).value
      ensures ok ==> notified == old(notified) + [subscribers]
      ensures !ok ==> state == old(state) && nextKey == old(nextKey) && notified == old(notified)
      ensures subscribers == old(subscribers) && Valid()
    {
      var r := AppendUpdater(state, name, value, nextKey);
      ok := r.Ok?;
      if ok {
        AppendPushes(state, name, value, nextKey, name);
        if name in state.arrays {
          PushKeepsDistinct(state.arrays, name, 0, nextKey);
        }
        Publish(r.value.0);
        nextKey := r.value.1;
      }
    }

    /** `useFieldArray(name).remove(index)`. */
    method Remove(name: string, index: int) returns (ok: bool)
      requires Valid()
      modifies this
      ensures ok == RemoveUpdater(old(state), name, index).Ok?
      ensures ok ==> state == RemoveUpdater(old(state), name, index).value && notified == old(notified) + [subscribers]
      ensures !ok ==> state == old(state) && notified == old(notified)
      ensures subscribers == old(subscribers) && nextKey == old(nextKey) && Valid()
    {
      var r := RemoveUpdater(state, name, index);
      ok := r.Ok?;
      if ok {
        RemoveSplices(state, name, index, name);
        if name in state.arrays {
          SpliceKeepsDistinct(state.arrays, name, index, 0, nextKey);
        }
        Publish(r.value);
      }
    }

    /** `Form`'s submit handler up to the call of `onSubmit`: returns the
        values handed to it, or nothing when the submit is ignored. */
    method HandleSubmit() returns (submitted: Option<Value>)
      requires Valid()
      modifies this
      ensures (state, submitted) == SubmitGuard(old(state))
      ensures submitted.Some? ==> notified == old(notified) + [subscribers]
      ensures submitted.None? ==> notified == old(notified)
      ensures subscribers == old(subscribers) && nextKey == old(nextKey) && Valid()
    {
      var s := state.formMeta.state;
      if s == Submitted || s == Submitting {
        submitted := None;
      } else {
        submitted := Some(state.values);
        SetState(Submitting);
      }
    }
  }
}
