# my-form state engine, modelled in Dafny

This project models the state engine of the `my-form` React form library. It
covers:

- **Path helpers.** Dotted field paths such as `contacts.0.emails` are split,
  read (`get`, `getIn`) and written, either in place (`set`, `setIn`) or
  copy-on-write (`set`/`setIn` of the immutable utils).
- **`flattenRecordToMap`.** Turns a nested record into a map from dotted
  leaf paths to leaf values.
- **The v2 store.** `createFormStore`, `setValue`, `startSubmit`,
  `endSubmit`, and the recursive discovery of field arrays that gives every
  array element an identity key.
- **The `useForm` instance.** Its state, subscribers and updaters:
  `setValue` with field metadata and effects, `setState`, `reset`,
  `useFieldArray`'s `fields`/`append`/`remove`, and the double-submit guard of
  `Form`.

Modules, one per file:

| file | module | models |
|---|---|---|
| `js_string.dfy` | `Results`, `JsString` | `Option`/`Result` wrappers; `split(".")` and joining; canonical array indices; `parseInt` on digit strings |
| `js_value.dfy` | `JsValue` | JavaScript values as a datatype; ordered records with distinct keys; property read `v?.[k]`; property assignment; object spread |
| `utils.dfy` | `Utils` | `lib/utils.ts`: `pathToArray`, `getByPathArray`, `get`, the in-place `set` on values, `pipe`, `deleteKeysByPrefix` |
| `immutable_utils.dfy` | `ImmutableUtils` | `lib/immutable-utils.ts` and `lib/v2/immutable-utils.ts`: copy-on-write `setByPathArray`/`set`/`setIn` |
| `object_heap.dfy` | `ObjectHeap` | `set` of `lib/utils.ts` and `setIn`/`getIn` of `src/form/utils.ts` over a heap of objects, where aliasing is visible |
| `flatten.dfy` | `FlattenRecordToMap` | `lib/flattenRecordToMap.ts` as a specification function and as the loop-and-recursion method |
| `store.dfy` | `Store` | `lib/v2/store.ts`: the search for field arrays, the store's updaters and a store object |
| `main_form.dfy` | `MainForm` | `lib/main.tsx`: the form state, its updaters, the field-array hook and the form instance |

How the model represents JavaScript:

- **Values.** A `Value` is `undefined`, a primitive, a record or an array.
  - Records keep their keys in insertion order, which is the order `for … in`
    and `Object.entries` visit them.
  - Numbers are integers, because the engine only counts and indexes.
- **Exceptions.** The exception the model represents is a `TypeError`, for
  example when the code indexes `undefined` or pushes onto something that is
  not an array. Operations that can throw return a `Result`. The `RangeError`
  of an invalid array `length` assignment is not represented (see below).
- **Pure versus in place.** The copy-on-write utilities and the updaters are
  functions. Code that mutates works on mutable state:
  - the in-place `setIn` walk and `deleteKeysByPrefix` are methods with loops;
  - the recursive search of `lib/v2/store.ts` pushes into an accumulator held
    by an object;
  - the form instance and the store are classes whose fields the methods
    update.
- **Identity keys.** `generateRandId` is replaced by a counter: the n-th key
  drawn is `n`. That is why keys can be proved fresh and distinct.

## Model

| member | source | states |
|---|---|---|
| JsString.Split | lib/utils.ts:34-36 | splitting on "." always yields at least one segment |
| JsString.SplitSegmentsHaveNoDot | lib/utils.ts:34-36 | no segment produced by `split(".")` contains a dot |
| JsString.JoinSplit | lib/utils.ts:34-36 | joining the segments of a path with "." gives back the path |
| JsString.SplitJoin | lib/utils.ts:34-36 | splitting a join of non-empty dot-free segments gives back those segments |
| JsString.SplitNoDotIsSingleton | lib/utils.ts:34-36 | a path without a dot is a single segment |
| JsString.SplitAroundDot | lib/utils.ts:34-36 | splitting `a.b` is splitting `a` followed by splitting `b` |
| JsString.NatToString | lib/flattenRecordToMap.ts:13 | the decimal text of an index is a non-empty digit string |
| JsString.NatToStringIsIndex | lib/flattenRecordToMap.ts:13 | the text of index n names array element n, contains no dot and is not empty |
| JsString.NatToStringValue | lib/flattenRecordToMap.ts:13 | the digits of n's text have the value n |
| JsString.CanonicalIndexIsNatToString | lib/utils.ts:38-43 | every canonical index key is the text of its own value |
| JsString.ParseIndexInjective | lib/utils.ts:38-43 | two keys naming the same array element are the same key |
| JsString.ParseInt | lib/immutable-utils.ts:27 | `Number.parseInt(tail, 10)`: an optional sign and the leading digits, `NaN` (None) when there are none; `ParseIntOfIndex` states that it reads an index key as that index |
| JsString.ParseIntOfIndex | lib/immutable-utils.ts:27 | `parseInt(tail, 10)` of a canonical index key is that index |
| JsValue.LookupPut | lib/immutable-utils.ts:30 | after writing a key, that key reads the new value and every other key reads as before |
| JsValue.PutKeys | lib/immutable-utils.ts:30 | writing a key adds exactly that key, keeps the record's size when the key was present, and keeps keys distinct |
| JsValue.PutLookupSame | lib/immutable-utils.ts:30 | writing back the value a key holds leaves the record as it was |
| JsValue.LookupAbsent | lib/utils.ts:42 | a key the record does not hold reads `undefined` |
| JsValue.WriteIndex | lib/immutable-utils.ts:26-28 | writing element i of an array sets i, keeps every other element, and pads a gap with holes that read `undefined` |
| JsValue.Prop | lib/utils.ts:42 | `res?.[prop]`: a record's own key, an array's element or `length`, a string's character (a Unicode scalar value) or `length` in such characters, otherwise `undefined` and never a throw; `PropOfNonObject`, `PropOfArrayObject` and `AssignPropRead` state its properties |
| JsValue.PropOfNonObject | lib/utils.ts:42 | reading a property of a primitive or `undefined` never yields an object |
| JsValue.PropOfArrayObject | lib/utils.ts:42 | an object read from an array is the element that a canonical index key names |
| JsValue.AssignProp | lib/utils.ts:56-58 | `obj[key] = value` on a record or array keeps it a record or array of the same kind; how it reads afterwards is `AssignPropRead` |
| JsValue.AssignPropRead | lib/utils.ts:56-58 | after `obj[key] = v`, key reads v, other keys except `length` read as before, and an in-range write keeps the array length |
| JsValue.SpreadFields | lib/immutable-utils.ts:30 | `{ ...v }`: a record's own fields, an array's or a string's elements under their index texts, nothing for other values; `IndexedLookup` and `SpreadStringLookup` state how the spread reads |
| Utils.PathToArray | lib/utils.ts:34-36 | `pathToArray` yields a non-empty list of dot-free segments that joins back to the path |
| Utils.PathToArrayUnique | lib/utils.ts:34-36 | any non-empty dot-free list joining to the path is what `pathToArray` returns |
| Utils.GetByPathArray | lib/utils.ts:38-43 | `getByPathArray`: `res?.[prop]` folded over the segments, never throwing; the `Get…` lemmas below state how it composes and where it reads `undefined` |
| Utils.Get | lib/utils.ts:5-7 | `get(obj, path)`: `getByPathArray` along `pathToArray(path)`; `GetExamples…` state the recorded results |
| Utils.GetByPathArrayAppend | lib/utils.ts:38-43 | reading along p then q is reading q from what p reached |
| Utils.GetPastMiss | lib/utils.ts:38-43 | once a read reaches null or `undefined`, every longer path reads `undefined` |
| Utils.NothingBelowUndefined | lib/utils.ts:38-43 | every path read from `undefined` is `undefined` |
| Utils.GetPastEnd | lib/utils.ts:38-43 | reading past the end of an array reads `undefined`, however deep the rest of the path |
| Utils.GetStep | lib/utils.ts:38-43 | a path read is the read of its first segment followed by the rest |
| Utils.NoObjectBelowNonObject | lib/utils.ts:38-43 | no path from a primitive reaches an object |
| Utils.GetExamplesRecord | lib/utils.ts:11-15 | `get({a:{b:{c:"TEST"}}}, "a")` is the inner record and `"a.b.c"` reads "TEST" |
| Utils.GetExamplesArray | lib/utils.ts:17-21 | `get(["a","b","c"], "1")` is "b" and `"3"` is `undefined` |
| Utils.GetExamplesMixed | lib/utils.ts:23-29 | `get({a:{b:[{c:1},{c:2}]}}, "a.b.1.c")` is 2 |
| Utils.GetExamplesMissingElement | lib/utils.ts:30 | `get(mixed, "a.b.2.c")` is `undefined` |
| Utils.Set | lib/utils.ts:45-61 | `set`: assigns the last segment on the object the head path reaches, does nothing for an empty last segment, throws a TypeError on a non-object parent; `SetReadsBack`, `SetChangesOnlySlot`, `SetEmptyTail` and `SetThroughMissing` state this |
| Utils.ReplaceAtReads | lib/utils.ts:53-58 | the object updated in place is seen at its path afterwards |
| Utils.ReplaceAtFrame | lib/utils.ts:53-58 | paths that diverge from the updated object's path read as before |
| Utils.SetReadsBack | lib/utils.ts:45-61 | after a successful `set` on a record parent or at an index, `get` at the path reads the value |
| Utils.SetChangesOnlySlot | lib/utils.ts:45-61 | `set` changes nothing read along a path that diverges from the written one |
| Utils.SiblingOfSlot | lib/utils.ts:53-58 | a sibling of the written property, other than `length`, reads as before |
| Utils.SetEmptyTail | lib/utils.ts:56 | when the last segment is empty, `set` writes nothing and returns the object |
| Utils.SetThroughMissing | lib/utils.ts:53-57 | when an intermediate object is missing, `set` throws a TypeError |
| Utils.Pipe | lib/utils.ts:85-87 | `pipe(...fns)`: the functions composed by `reduce`; `PipeLeftToRight` states the order |
| Utils.PipeLeftToRight | lib/utils.ts:85-87 | `pipe()` is the identity, `pipe(f)` is f, and `pipe(f…, g…)` applies the fs and then the gs |
| Utils.DeleteKeysByPrefix | lib/utils.ts:125-134 | afterwards the map holds exactly the old keys that do not start with the prefix, each with its old value |
| ImmutableUtils.Update | lib/immutable-utils.ts:23-30 | the updated copy of the parent: an array copied with element `parseInt(tail)` written, anything else spread with `tail` assigned; `UpdateArray`, `UpdateRecord` and `UpdateReads` state it |
| ImmutableUtils.SetByPathArray | lib/immutable-utils.ts:11-36 | `setByPathArray`: returns the object for an empty last segment, otherwise writes the updated parent back up the head path; `SetCons`, `GetAfterSet` and `SetFrame` state it |
| ImmutableUtils.SetIn | lib/v2/immutable-utils.ts:4-10 | `setIn(o, path, v)` (and `set`): `setByPathArray` along `pathToArray(path)`; `SetInReadsBack` and `SetInEmptyTail` state it |
| ImmutableUtils.UpdateArray | lib/immutable-utils.ts:24-29 | an array parent is copied with element `parseInt(tail)` replaced and the other elements kept |
| ImmutableUtils.UpdateRecord | lib/immutable-utils.ts:30 | a record parent is spread with `tail` written and every other key kept |
| ImmutableUtils.IndexedLookup | lib/immutable-utils.ts:30 | a spread array is a record keyed by index texts |
| ImmutableUtils.SpreadStringLookup | lib/immutable-utils.ts:30 | a spread string is a record of its characters, read like the string itself |
| ImmutableUtils.UpdateReads | lib/immutable-utils.ts:23-30 | the updated copy of the parent reads the value at `tail` and is unchanged elsewhere except at `length` |
| ImmutableUtils.SetEmptySegment | lib/immutable-utils.ts:19-21 | a path with an empty segment leaves the object as it was |
| ImmutableUtils.SetInEmptyTail | lib/v2/immutable-utils.ts:4-10 | a path ending in an empty segment returns the object unchanged |
| ImmutableUtils.SetCons | lib/immutable-utils.ts:11-36 | setting along `k.rest` is updating key k of the object with the result of setting `rest` below it |
| ImmutableUtils.SetSingle | lib/immutable-utils.ts:32-34 | a one-segment path is a single update of the root |
| ImmutableUtils.GetAfterSet | lib/immutable-utils.ts:11-36 | reading the written path from the new object gives the value |
| ImmutableUtils.AddressableNoEmpty | lib/immutable-utils.ts:19-21 | a path along which a write lands has no empty segment |
| ImmutableUtils.SetFrame | lib/immutable-utils.ts:11-36 | every path that diverges from the written one reads as before in the new object |
| ImmutableUtils.SetMaterialisesMissing | lib/immutable-utils.ts:30 | writing below a missing object creates a record holding only the written key |
| ImmutableUtils.SetInReadsBack | lib/v2/immutable-utils.ts:4-10 | `get(setIn(o, p, v), p)` is v, and any diverging path reads as in o |
| ImmutableUtils.SetInExamplesRecord | lib/v2/immutable-utils.ts:42-44 | `setIn(o, "a", "1")` is `{a:"1"}` and `setIn(o, "a.b", "1")` is `{a:{b:"1"}}` |
| ImmutableUtils.SetInExamplesArray | lib/v2/immutable-utils.ts:47-49 | writing "0" and "1" of `["a","b","c"]` replaces that element only |
| ImmutableUtils.SetIndexExample | lib/v2/immutable-utils.ts:47-49 | `setIn(array, "i", v)` is the array with element i replaced |
| ImmutableUtils.SetInExamplesMixed | lib/v2/immutable-utils.ts:51-57 | `setIn(mixed, "a.b.1.c", 10)` is `{a:{b:[{c:1},{c:10}]}}` |
| ImmutableUtils.SetInExamplesMixedRecord | lib/v2/immutable-utils.ts:55-57 | the write at `b.1.c` in the inner record gives `{b:[{c:1},{c:10}]}` |
| ImmutableUtils.SetInExamplesMixedElement | lib/v2/immutable-utils.ts:55-57 | the write at `1.c` in the inner array replaces only element 1 |
| FlattenRecordToMap.Flatten | lib/flattenRecordToMap.ts:1-37 | the map `flattenRecordToMap(record, parentKey)` returns, as a function: nothing for a non-record; `FlattenSound`, `FlattenComplete` and `FlattenLeaves` state which entries it holds |
| FlattenRecordToMap.FlattenFields | lib/flattenRecordToMap.ts:7-34 | the map after the `for … in` loop has visited the first n keys; `FieldsSource` and `FieldsKeep` state its entries |
| FlattenRecordToMap.FlattenEntry | lib/flattenRecordToMap.ts:8-33 | one key's entries under `newKey`: an array's items, a record flattened below it, or the leaf itself; `EntrySound` and `EntryComplete` state them |
| FlattenRecordToMap.FlattenItems | lib/flattenRecordToMap.ts:11-22 | the entries of the first n array elements; `ArraySound`, `ArrayComplete` and `ItemsKeep` state them |
| FlattenRecordToMap.FlattenItem | lib/flattenRecordToMap.ts:13-21 | an object-typed element is flattened under `key.index`, any other is a leaf there; `FlattenArrayLeaf` states the leaf case |
| FlattenRecordToMap.Under | lib/flattenRecordToMap.ts:8 | `newKey`: `parentKey.key`, or the key alone at the top; used by every flatten lemma above |
| FlattenRecordToMap.MergeInto | lib/flattenRecordToMap.ts:16-18 | copying the inner map's entries into the result map is a map union in which the inner map wins |
| FlattenRecordToMap.FlattenRecord | lib/flattenRecordToMap.ts:1-37 | the loop-and-recursion implementation returns the map that the specification function `Flatten` defines |
| FlattenRecordToMap.AddEntry | lib/flattenRecordToMap.ts:8-33 | one key of the record adds exactly that key's entries |
| FlattenRecordToMap.FlattenArrayInto | lib/flattenRecordToMap.ts:11-22 | the `forEach` over an array adds the entries of all its items in order |
| FlattenRecordToMap.AddItem | lib/flattenRecordToMap.ts:13-21 | a record item is flattened under `key.index`, and any other item is stored there |
| FlattenRecordToMap.FlattenSound | lib/flattenRecordToMap.ts:1-37 | every key of the flattened map is the dotted path of a leaf, and it maps to the value read there |
| FlattenRecordToMap.EntrySound | lib/flattenRecordToMap.ts:8-33 | every entry made for one key names a leaf below it and holds that leaf's value |
| FlattenRecordToMap.ArraySound | lib/flattenRecordToMap.ts:11-22 | every entry made for an array names a leaf below one of its items |
| FlattenRecordToMap.FlattenComplete | lib/flattenRecordToMap.ts:1-37 | every leaf path of the record is a key of the map, holding the leaf's value |
| FlattenRecordToMap.EntryComplete | lib/flattenRecordToMap.ts:8-33 | every leaf below one key is among the entries made for it |
| FlattenRecordToMap.ArrayComplete | lib/flattenRecordToMap.ts:11-22 | every leaf below an array's items is among the array's entries |
| FlattenRecordToMap.FieldsSource | lib/flattenRecordToMap.ts:7-34 | each entry of the map is an entry made for one of the record's keys, with that entry's value |
| FlattenRecordToMap.ItemsSource | lib/flattenRecordToMap.ts:12-22 | each array entry comes from one item |
| FlattenRecordToMap.FieldsKeep | lib/flattenRecordToMap.ts:7-34 | a key's entries survive the writes made for later keys |
| FlattenRecordToMap.ItemsKeep | lib/flattenRecordToMap.ts:12-22 | an item's entries survive the writes made for later items |
| FlattenRecordToMap.FlattenLeaves | lib/flattenRecordToMap.ts:1-37 | a path is a key of the top-level flattened map iff it names a leaf, and its entry is `get` at that path |
| FlattenRecordToMap.FlattenFlatExamples | lib/flattenRecordToMap.ts:59-74 | a flat record maps to itself and `{}` maps to the empty map |
| FlattenRecordToMap.FlattenNestedExample | lib/flattenRecordToMap.ts:43-53 | the nested example maps `name.lastName` to "Doe" |
| FlattenRecordToMap.FlattenTopLevelExample | lib/flattenRecordToMap.ts:43-54 | the nested example maps `age` to 25 and has no entry `name` |
| FlattenRecordToMap.FlattenArrayLeaf | lib/flattenRecordToMap.ts:11-22 | a primitive element i of an array under key k appears as `k.i`, and an empty array contributes nothing |
| Store.Range | lib/v2/store.ts:102 | the keys issued from a to b are a, a+1, …, b-1 |
| Store.ThenIssues | lib/v2/store.ts:94-115 | two consecutive parts of the search issue consecutive key ranges |
| Store.Scan | lib/v2/store.ts:89-116 | the entries `findFieldArraysRecursively` pushes and the next key, under a prefix rule; `ScanIssues`, `ScanSound` and `ScanComplete` state them |
| Store.ScanKeys | lib/v2/store.ts:94-115 | the run after the `for … in` loop has visited the first n keys |
| Store.ScanEntry | lib/v2/store.ts:95-114 | one visited key: an array registered under `prefix + name` with one key per element before its items are searched, a record searched under the rule's child prefix |
| Store.ScanItems | lib/v2/store.ts:105-109 | the `forEach` over the first n elements, searching each object element under `name.index.` |
| Store.ChildPrefix | lib/v2/store.ts:112-113 | the prefix a record child is searched under: `name.` as written, `prefix + name.` with the prefix kept |
| Store.ScanIssues | lib/v2/store.ts:89-116 | the search issues exactly the keys next, next+1, … in order, one per element of every array it registers |
| Store.ScanKeysIssues | lib/v2/store.ts:94-115 | the first n keys of the loop issue one consecutive key range |
| Store.ScanEntryIssues | lib/v2/store.ts:95-114 | one key of the loop issues one consecutive key range |
| Store.ScanItemsIssues | lib/v2/store.ts:105-109 | the recursion into array items issues one consecutive key range |
| Store.ScanKeysDistinct | lib/v2/store.ts:89-116 | no two issued keys are equal |
| Store.ScanSound | lib/v2/store.ts:89-116 | with the prefix kept, every registered name is the dotted path of an array reachable from the values, with one key per element |
| Store.ScanKeysSound | lib/v2/store.ts:94-115 | with the prefix kept, every entry registered by the first n keys names a reachable array |
| Store.EntrySound | lib/v2/store.ts:95-114 | with the prefix kept, every entry registered for one key names an array below it |
| Store.ItemsSound | lib/v2/store.ts:105-109 | with the prefix kept, every entry registered below an array's items names an array inside an object item |
| Store.ScanComplete | lib/v2/store.ts:89-116 | with the prefix kept, every array reached through visited keys, other than one that is itself an element of an array, is registered under its dotted path, with one key per element |
| Store.EntryComplete | lib/v2/store.ts:95-114 | with the prefix kept, every array reached below one key through visited keys, other than one that is itself an element of an array, is registered by it |
| Store.ItemsComplete | lib/v2/store.ts:105-109 | with the prefix kept, every array inside an object item is registered under `name.index.…` |
| Store.KeyRecords | lib/v2/store.ts:102 | `value.map(() => ({ key }))` gives one `{key}` record per element, carrying that element's key |
| Store.FromEntries | lib/v2/store.ts:86 | `Object.fromEntries`: each entry assigned in order; `FromEntriesKeys` and `FromEntriesLast` state its keys and values |
| Store.FromEntriesKeys | lib/v2/store.ts:86 | `Object.fromEntries` holds exactly the registered names, each once |
| Store.FromEntriesLast | lib/v2/store.ts:86 | a name registered twice keeps its last entry |
| Store.FindFieldArraysBy | lib/v2/store.ts:83-87 | `findFieldArrays` under either prefix rule: the record made from the search's entries |
| Store.FindFieldArrays | lib/v2/store.ts:83-116 | `findFieldArrays` as written, searching record children under `name.`; `FindFieldArraysAgree`, the examples and `PrefixDroppedAsWritten` state what it registers |
| Store.FindFieldArraysCorrected | lib/v2/store.ts:112-113 | the same search with the enclosing prefix kept; the lemmas `FindFieldArraysRegisters` to `FindFieldArraysKeys` are about it |
| Store.FindFieldArraysRegisters | lib/v2/store.ts:83-87 | for the prefix-kept search, a dotted path is a key of the result iff it leads to an array reached through visited keys, other than one that is itself an element of an array |
| Store.RegisteredOnlyReached | lib/v2/store.ts:83-87 | for the prefix-kept search, every key of the result names a reachable array |
| Store.ReachedRegistered | lib/v2/store.ts:83-87 | for the prefix-kept search, every array reached through visited keys, other than one that is itself an element of an array, is a key of the result |
| Store.FindFieldArraysKeys | lib/v2/store.ts:83-87 | for the prefix-kept search, the fields registered for a path hold one key per element of the array `get` finds there |
| Store.FindFieldArraysEmpty | lib/v2/store.ts:121 | `{emails: []}` gives `{emails: {fields: []}}` |
| Store.FindFieldArraysTwoEmpty | lib/v2/store.ts:122-125 | two empty arrays give two empty field lists |
| Store.FindFieldArraysOneElement | lib/v2/store.ts:126-128 | a one-element array gets one keyed field |
| Store.FindFieldArraysContacts | lib/v2/store.ts:129-134 | an array of contacts registers `contacts` and `contacts.0.emails` |
| Store.FindFieldArraysProfile | lib/v2/store.ts:135-142 | under a record, `profile.contacts` and `profile.contacts.0.emails` are registered |
| Store.PrefixDroppedAsWritten | lib/v2/store.ts:112-113 | as written, an array two records deep is registered under a path that does not reach it, and that is the `arrays` a new store holds |
| Store.PrefixKeptCorrected | lib/v2/store.ts:112-113 | with the enclosing prefix kept, the same array is registered under the path that reaches it |
| Store.ScanAgrees | lib/v2/store.ts:89-116 | where no record sits under a record or under an array element, the search as written and the prefix-kept search are the same run |
| Store.FindFieldArraysAgree | lib/v2/store.ts:83-116 | on such values `findFieldArrays` as written equals the prefix-kept search, which covers every recorded example |
| Store.FindFieldArraysAsWrittenRegisters | lib/v2/store.ts:83-116 | on such values the store registers a dotted path iff it leads to an array reached through visited keys, other than one that is itself an element of an array |
| Store.FieldArraySearch.constructor | lib/v2/store.ts:84 | the search starts with an empty result list |
| Store.FieldArraySearch.GenerateId | lib/utils.ts:1-3 | drawing a key returns the next key and advances the supplier |
| Store.FieldArraySearch.GenerateIds | lib/v2/store.ts:102 | drawing n keys returns the next n keys in order |
| Store.FieldArraySearch.Recurse | lib/v2/store.ts:89-116 | the recursive search appends exactly the entries the specification function `Scan` defines, and issues its keys |
| Store.FieldArraySearch.Visit | lib/v2/store.ts:95-114 | one key of the `for … in` loop appends that key's entries |
| Store.FieldArraySearch.VisitItems | lib/v2/store.ts:105-109 | the `forEach` over items recurses into each object item under `name.index.` |
| Store.RunFindFieldArrays | lib/v2/store.ts:83-87 | `findFieldArrays` returns the record of the registered entries |
| Store.InitialState | lib/v2/store.ts:39-49 | the state `createFormStore` builds; `InitialStateHolds` states its slots |
| Store.SetValueUpdater | lib/v2/store.ts:59-61 | `setValue`'s updater: `setIn(oldState, values.name, value)`; `SetValueOnlyValues` and `SetValueKeepsMeta` state it |
| Store.StartSubmitUpdater | lib/v2/store.ts:67-69 | `startSubmit`'s updater: `setIn(oldState, "formMeta.state", "submitting")`; `StartSubmitMarks` states it |
| Store.EndSubmitUpdater | lib/v2/store.ts:75-80 | `endSubmit`'s updater: `formMeta` replaced by a submitted record with the count plus one; `EndSubmitCounts` and `EndSubmitWrites` state it |
| Store.PlusOne | lib/v2/store.ts:78 | the new submit count is the old one plus one |
| Store.SetUnderKey | lib/v2/immutable-utils.ts:4-37 | a write at `top.rest` replaces only key `top` of the state with the write at `rest` below it |
| Store.SetValueOnlyValues | lib/v2/store.ts:51-62 | `setValue` writes the field into `values` and leaves every other key of the state as it was |
| Store.StartSubmitMarks | lib/v2/store.ts:64-70 | `startSubmit` marks the form as submitting, keeps the submit count and the other keys |
| Store.EndSubmitCounts | lib/v2/store.ts:72-81 | `endSubmit` marks the form as submitted, adds one to the count and keeps the other keys |
| Store.EndSubmitWrites | lib/v2/store.ts:72-81 | `endSubmit` replaces `formMeta` with a new record of state and incremented count |
| Store.SetValueKeepsMeta | lib/v2/store.ts:51-62 | `setValue` keeps the form metadata and the state's shape |
| Store.InitialStateHolds | lib/v2/store.ts:39-49 | a new store holds the defaults (under the key `deafaultValues`) and the values, the field arrays the search as written registers, a valid form with count 0 and no field metadata |
| Store.FormStore.constructor | lib/v2/store.ts:39-49 | a new store holds the initial state built from the defaults, with the field arrays found by the search as written |
| Store.FormStore.SetValue | lib/v2/store.ts:51-62 | the store's state becomes the `setValue` update of the old one, and the form metadata is kept |
| Store.FormStore.StartSubmit | lib/v2/store.ts:64-70 | the store's state becomes the `startSubmit` update, with the count kept |
| Store.FormStore.EndSubmit | lib/v2/store.ts:72-81 | the store's state becomes the `endSubmit` update, with the count one higher |
| MainForm.FindFieldArrays | lib/main.tsx:124-135 | `findFieldArrays` of the form: each top-level array-valued key registered with one fresh key per element; `FindFieldArraysTopLevel` states it |
| MainForm.InitialState | lib/main.tsx:21-27 | the form's first state: defaults and values equal, the field arrays found in them, no field metadata, a valid form with count 0; the constructor's contract states it |
| MainForm.FreshRunKeepsDistinct | lib/main.tsx:129 | giving a field array keys freshly drawn from the supplier keeps all keys distinct and in the issued range |
| MainForm.CollectArrays | lib/main.tsx:125-135 | the `reduce` never moves the key supplier backwards |
| MainForm.Register | lib/main.tsx:127-132 | one entry of the `reduce` never moves the key supplier backwards |
| MainForm.CollectArraysNames | lib/main.tsx:125-135 | a name is registered iff it was already registered or some entry of that name holds an array |
| MainForm.CollectArraysKeeps | lib/main.tsx:125-135 | a registration that no later entry names is kept |
| MainForm.CollectArraysLengths | lib/main.tsx:128-129 | an array entry gets one key per element |
| MainForm.CollectArraysFresh | lib/main.tsx:125-135 | all keys drawn are distinct and lie in the issued range |
| MainForm.FindFieldArraysTopLevel | lib/main.tsx:124-135 | exactly the top-level array-valued keys are registered, each with one fresh distinct key per element |
| MainForm.ApplyWrites | lib/main.tsx:85-88 | an effect's `setValue` calls, each a `set` on the draft values, stopping at the first that throws |
| MainForm.ApplyWritesAppend | lib/main.tsx:85-88 | an effect's writes done in two batches are the same as done in one, and a throwing write stops the rest |
| MainForm.SetValueMeta | lib/main.tsx:69-84 | after `setValue`, the field's metadata is "dirty iff different from the default, touched as the option says or as before"; other fields' metadata is kept and unchanged metadata is not written |
| MainForm.SetValueUpdater | lib/main.tsx:69-89 | `setValue`'s updater: metadata computed from the default, `set` on the values, then the effect's writes; `SetValueMeta` states the metadata, `SetValueNoEffect` and `SetValueReadsBack` the values without an effect, `SetValueWithEffect` and `SetValueEffectReadsBack` the values with one |
| MainForm.SetValueNoEffect | lib/main.tsx:77-78 | without an effect, `setValue` succeeds iff the last segment is empty or the head path reaches an object; an empty last segment leaves the values unchanged, and a path diverging from the written one reads as before |
| MainForm.SetValueReadsBack | lib/main.tsx:78 | without an effect, the value written by `setValue` reads back at its path |
| MainForm.SetValueWithEffect | lib/main.tsx:77-88 | with an effect, a throwing `set` throws; otherwise `setValue` succeeds iff the field's own write followed by the effect's writes (computed from the values with the field written) all succeed, and its values are the result of that run |
| MainForm.ApplyWritesFrame | lib/main.tsx:85-88 | an effect's writes whose paths all part ways with a path leave what that path reads unchanged |
| MainForm.SetValueEffectReadsBack | lib/main.tsx:77-88 | with an effect whose writes all part ways with the field, the value written by `setValue` still reads back at its path |
| MainForm.SetValueBackToDefault | lib/main.tsx:70-84 | setting a field back to its default clears its dirty flag and keeps its touched flag |
| MainForm.SetStateUpdater | lib/main.tsx:92-104 | `setState`'s updater: the form state set, the count raised on entry into "submitted"; `SetStateIdempotent` and `RunStatesCounts` state it |
| MainForm.SetStateIdempotent | lib/main.tsx:92-104 | setting the same form state twice is setting it once, so the submit count rises only once |
| MainForm.RunStatesCounts | lib/main.tsx:92-104 | over a run of `setState` calls, the submit count rises by the number of entries into "submitted", the last state wins and nothing else changes |
| MainForm.RunStatesSnoc | lib/main.tsx:92-104 | a run of `setState` calls is their application one after another |
| MainForm.ResetState | lib/main.tsx:105-118 | the state `reset` publishes; `ResetClears` and `ResetTwice` state it |
| MainForm.ResetClears | lib/main.tsx:105-118 | `reset` sets defaults and values to the argument (or the old defaults when none is given), clears field metadata, marks the form valid, keeps the count and draws fresh field-array keys |
| MainForm.ResetTwice | lib/main.tsx:105-118 | a second `reset()` with no argument gives the same state up to field-array keys |
| MainForm.SpliceOne | lib/main.tsx:301-302 | `splice(index, 1)` on an array; `SpliceOneKeepsOrder` states what it keeps |
| MainForm.SpliceStart | lib/main.tsx:301-302 | `splice`'s start index is clamped into the array |
| MainForm.SpliceOneKeepsOrder | lib/main.tsx:301-302 | `splice(index, 1)` removes at most one element and keeps the others in order |
| MainForm.Fields | lib/main.tsx:285-289 | `fields`: one `{key, name.index}` per registered key, or none; `FieldNameAddressesElement` states it |
| MainForm.FieldNameAddressesElement | lib/main.tsx:285-289 | the i-th field has the i-th key, and its name `name.i` reads the i-th element of the values |
| MainForm.AppendUpdater | lib/main.tsx:290-297 | `append`'s updater: push onto the values' array and onto the registered keys; `AppendPushes` states it |
| MainForm.RemoveUpdater | lib/main.tsx:298-305 | `remove`'s updater: splice out of the values' array and the registered keys; `RemoveSplices` and `RemoveKeepsPairs` state it |
| MainForm.ReplaceArray | lib/main.tsx:293 | writing back the array under a name reads back there and keeps every other key except `length` |
| MainForm.AppendPushes | lib/main.tsx:290-297 | `append` succeeds iff the values hold an array under the name; it pushes the value, pushes a fresh key only when the array is registered, and keeps the rest |
| MainForm.RemoveSplices | lib/main.tsx:298-305 | `remove` succeeds iff the values hold an array under the name; it splices the element out of the values and, when registered, out of the keys, and keeps the rest |
| MainForm.RemoveKeepsPairs | lib/main.tsx:298-305 | after `remove`, each remaining element keeps the key it was paired with |
| MainForm.PushKeepsDistinct | lib/main.tsx:294 | pushing a freshly drawn key keeps all keys distinct |
| MainForm.SpliceKeepsDistinct | lib/main.tsx:302 | splicing a key out keeps all keys distinct |
| MainForm.SubmitGuard | lib/main.tsx:185-196 | the guard of `handleSubmit`: ignore the event when the state is "submitted" or "submitting", otherwise mark it "submitting" and hand on the values; `HandleSubmitOnce` states it |
| MainForm.HandleSubmitOnce | lib/main.tsx:185-196 | the form submits iff it is neither submitted nor submitting; submitting sends the current values and marks it submitting, so a second submit is ignored |
| MainForm.FormInstance.constructor | lib/main.tsx:19-29 | a new form holds the initial state, no subscribers and no notifications |
| MainForm.FormInstance.Subscribe | lib/main.tsx:46-47 | subscribing adds the listener and changes nothing else |
| MainForm.FormInstance.Unsubscribe | lib/main.tsx:48-50 | unsubscribing removes the listener and changes nothing else |
| MainForm.FormInstance.Publish | lib/main.tsx:31-34 | publishing stores the state and notifies every current subscriber once |
| MainForm.FormInstance.SetValue | lib/main.tsx:63-91 | the state becomes the `setValue` update and subscribers are notified; a throwing update changes nothing; key invariants are kept |
| MainForm.FormInstance.SetState | lib/main.tsx:92-104 | the state becomes the `setState` update and subscribers are notified |
| MainForm.FormInstance.Reset | lib/main.tsx:105-118 | the state becomes the `reset` state with freshly drawn keys, and subscribers are notified |
| MainForm.FormInstance.Append | lib/main.tsx:290-297 | the state becomes the `append` update with a freshly drawn key; a throwing update changes nothing |
| MainForm.FormInstance.Remove | lib/main.tsx:298-305 | the state becomes the `remove` update; a throwing update changes nothing |
| MainForm.FormInstance.HandleSubmit | lib/main.tsx:185-196 | the guard decides: values are handed on and subscribers notified only when not already submitting or submitted |
| ObjectHeap.ReadProp | src/form/utils.ts:41 | `res?.[prop]` on the heap: a live record's property, an array's element or `length`, a string's character (a Unicode scalar value) or `length` in such characters, otherwise `undefined` |
| ObjectHeap.GetIn | src/form/utils.ts:40-42 | `getIn` / `getByPathArray` on the heap; `GetInSnoc`, `GetInAppend` and `GetInPastMissing` state it |
| ObjectHeap.GetInSnoc | src/form/utils.ts:40-42 | `getIn` along `p.k` reads property k of what p reached |
| ObjectHeap.GetInPastMissing | src/form/utils.ts:40-42 | every path read from `undefined` is `undefined` |
| ObjectHeap.ListWrite | src/form/utils.ts:12 | writing element i of an array sets i, keeps the others and pads with holes |
| ObjectHeap.Assign | src/form/utils.ts:12 | `object[key] = value` on one heap node; `AssignReads` states how it reads afterwards |
| ObjectHeap.AssignReads | src/form/utils.ts:12 | after `object[key] = value`, key reads the value and the other keys read as before |
| ObjectHeap.WriteFrame | lib/utils.ts:56-58 | a read that never passes through the written property sees no change |
| ObjectHeap.AliasSeesWrite | lib/utils.ts:56-58 | every path that reaches the written object sees the new value through it |
| ObjectHeap.Heap.Set | lib/utils.ts:45-61 | `set` returns the root; it throws iff the tail is non-empty and the parent is not a live object; otherwise it assigns the tail of the parent in place, and an empty tail changes nothing |
| ObjectHeap.Heap.SetIn | src/form/utils.ts:1-14 | `setIn` succeeds iff the walk reaches a live parent; it returns that parent, not the root, and assigns the last segment there in place; a throwing walk changes nothing |
| ObjectHeap.MissingIntermediate | src/form/utils.ts:8-10 | a walk that hits `undefined` half-way cannot reach a live parent |
| ObjectHeap.GetInAppend | src/form/utils.ts:40-42 | reading along p then q is reading q from what p reached |
| ObjectHeap.SetInReturnsParent | src/form/utils.ts:1-14 | `setIn({a:{b:…}}, "a.b", "1")` returns the inner object `a` with `b` set |
| ObjectHeap.SetMixedReturnsRoot | lib/utils.ts:79-81 | `set(mixed, "a.b.1.c", 10)` returns the root and changes only element 1's `c` |
| ObjectHeap.MixedTarget | lib/utils.ts:79-81 | in the mixed example, `a.b.1` reaches the second element object |

## Left out

- Floating-point numbers, `NaN` and `toFixed`: numbers are integers, which is all the engine counts and indexes with.
- The ordering JavaScript gives to integer-like record keys (they enumerate first, ascending): records keep insertion order.
- `parseInt`'s leading whitespace: `ParseInt` reads an optional sign and the leading decimal digits, which covers every key the engine writes.
- JsValue.Prop: strings are sequences of Unicode scalar values, not UTF-16 code units, so a string's `length` and its indices differ from JavaScript's outside the Basic Multilingual Plane (`"😀".length` is 1 here, 2 in JavaScript); the engine does not read into strings along field paths.
- JsValue.SpreadFields: a spread string has one key per Unicode scalar value rather than per UTF-16 code unit, for the same reason.
- ObjectHeap.ReadProp: a heap string's `length` and indices count Unicode scalar values rather than UTF-16 code units, for the same reason.
- ImmutableUtils.SpreadStringLookup: states the spread of a string in Unicode scalar values, as `JsValue.SpreadFields` does.
- Non-index properties of arrays, prototypes and getters: arrays hold elements only, so writing any other key on an array leaves it unchanged.
- JsValue.AssignProp: an array `length` assignment is treated as no change, whereas JavaScript truncates or extends the array, or throws a `RangeError` for a length that is not a valid array length; the engine writes `length` only if a field path names it.
- ObjectHeap.Assign: the same treatment of an array `length` assignment as `JsValue.AssignProp`.
- JsValue.AssignProp, ImmutableUtils.Update, ObjectHeap.Assign and ObjectHeap.ListWrite: an index key of 2^32 − 1 or more is written as an element, whereas JavaScript keeps it as a non-index property; the engine's indices come from array positions and stay far below that bound.
- JsString.ParseInt: the digits are read as an unbounded integer, so a key of more than about sixteen digits is not rounded as JavaScript's floating-point result would be.
- The insertion order of the JavaScript `Map` built by `flattenRecordToMap`: it is a Dafny `map`, so only the key–value pairs are modelled, not the order of iteration.
- Reference identity: `value !== get(defaultValues, name)` compares values structurally, so two distinct but equal records count as equal.
- Array holes are read as `undefined` and are not distinguished from stored `undefined`.
- zustand's shallow merge of an updater's result into the state: the store's updaters return whole records, so the merge is the result itself.
- immer's drafts and structural sharing: the updaters of `lib/main.tsx` are functions from the old state to the new one.
- React hooks and components, `useSyncExternalStore`, `useEvent`, contexts and event objects: these are not part of the engine.
- The asynchronous `onSubmit` call: `MainForm.FormInstance.HandleSubmit` returns the values it would hand on.
- Listener closures: a listener is an identity, and the instance records each notification as the set of listeners called.
- `generateRandId`'s `Math.random`: replaced by a counter supplier whose n-th key is n (its decimal text in `Store.KeyString`), so distinctness is provable.
- An effect's own reads of the draft through `getValues`: an effect is modelled as a function from the values written so far to the writes it makes.
- src/form/useForm.tsx and the type-level `Path`/`Paths`/`Leaves` types are not part of this model.
- FlattenRecordToMap.FlattenSound: soundness and completeness are stated for records whose keys are non-empty, dot-free and distinct at every depth (`Plain`), because otherwise two paths can print the same key.
- Store.ScanSound: soundness and completeness of the search are stated for `Plain` values, for the same reason.
- Store.FormStore.EndSubmit: requires a numeric submit count, since the source's `+ 1` on anything else concatenates or yields `NaN`.
- MainForm.FindFieldArrays: requires values that are not null or `undefined` (`Object.entries` throws on them); the source types them as a record.
- MainForm.FormInstance.constructor: requires defaults that are not null or `undefined`, for the same reason.
- ObjectHeap.Heap.Set: requires the root to be a live object in the heap, as the source's callers pass one.

## Findings

| source | as written | input that shows it | evidently intended | confidence | as-written member | corrected member |
|---|---|---|---|---|---|---|
| lib/v2/store.ts:112-113 | a record child is searched with prefix `${name}.`, dropping the prefix it was found under | `{p: {q: {r: []}}}`: the array is registered as `q.r`, a path that reads `undefined` | prefix `${prefix}${name}.`, registering `p.q.r` | not executed | Store.PrefixDroppedAsWritten | Store.PrefixKeptCorrected |

The store itself keeps the search as written (`Store.FindFieldArrays`), since
that is what `createFormStore` runs; the corrected search is
`Store.FindFieldArraysCorrected`, and the soundness and completeness lemmas are
stated for it. `Store.FindFieldArraysAgree` shows the two give the same record
whenever no record sits below a record or an array element, which covers every
recorded example.
