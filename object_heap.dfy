/** The in-place writes seen at the level of references: `set` in
    lib/utils.ts and `setIn` and `getIn` in src/form/utils.ts. Objects live
    in a heap under addresses; a property holds a primitive, `undefined`, or
    a reference to another object, so one object can be reached along
    several paths and a write to it is seen along all of them. */
module ObjectHeap {
  import opened Results
  import opened JsString
  import opened JsValue
  import opened Utils

  type Addr = nat

  /** What a property holds. */
  datatype Slot = Missing | Leaf(p: Primitive) | Ref(addr: Addr)

  /** An object in the heap: a record of own properties, or an array. */
  datatype Node = Rec(props: map<string, Slot>) | List(items: seq<Slot>)

  type Nodes = map<Addr, Node>

  /** `s?.[key]`: a record's own property, an array's element or length, a
      string's character or length; `undefined` for everything else. */
  function ReadProp(nodes: Nodes, s: Slot, key: string): Slot
  {
    match s
    case Ref(a) =>
      if a !in nodes then Missing
      else (
        match nodes[a]
        case Rec(props) => if key in props then props[key] else Missing
        case List(items) =>
          if key == "length" then Leaf(Num(|items|))
          else if ParseIndex(key).Some? && ParseIndex(key).value < |items| then items[ParseIndex(key).value]
          else Missing)
    case Leaf(Str(str)) =>
      if key == "length" then Leaf(Num(|str|))
      else if ParseIndex(key).Some? && ParseIndex(key).value < |str| then Leaf(Str([str[ParseIndex(key).value]]))
      else Missing
    case _ => Missing
  }

  /** `getIn` / `getByPathArray`: `res?.[prop]` folded over the segments. */
  function GetIn(nodes: Nodes, s: Slot, path: seq<string>): Slot
    decreases |path|
  {
    if path == [] then s else GetIn(nodes, ReadProp(nodes, s, path[0]), path[1..])
  }

  /** Reading along p + [k] is reading k from the slot at p. */
  lemma {:induction false} GetInSnoc(nodes: Nodes, s: Slot, p: seq<string>, k: string)
    ensures GetIn(nodes, s, p + [k]) == ReadProp(nodes, GetIn(nodes, s, p), k)
    decreases |p|
  {
    if p == [] {
      assert [] + [k] == [k];
    } else {
      assert (p + [k])[1..] == p[1..] + [k];
      GetInSnoc(nodes, ReadProp(nodes, s, p[0]), p[1..], k);
    }
  }

  /** Once a read misses, the rest of the path reads `undefined`. */
  lemma {:induction false} GetInPastMissing(nodes: Nodes, path: seq<string>)
    ensures GetIn(nodes, Missing, path) == Missing
    decreases |path|
  {
    if path != [] {
      GetInPastMissing(nodes, path[1..]);
    }
  }

  /** Whether a slot refers to an object in the heap. */
  predicate IsLive(nodes: Nodes, s: Slot)
  {
    s.Ref? && s.addr in nodes
  }

  /** `arr[i] = v`: replaces element i, or, past the end, grows the array
      with holes up to i. */
  function ListWrite(items: seq<Slot>, i: nat, v: Slot): (r: seq<Slot>)
    ensures |r| == if i < |items| then |items| else i + 1
    ensures r[i] == v
    ensures forall j :: 0 <= j < |items| && j != i ==> r[j] == items[j]
    ensures forall j :: |items| <= j < |r| && j != i ==> r[j] == Missing
  {
    if i < |items| then items[i := v]
    else items + seq(i - |items|, _ => Missing) + [v]
  }

  /** `node[key] = v`: a record gets the key; an array gets a canonical
      index written. Any other key on an array, `length` included, leaves
      the array as it was (see `JsValue.AssignProp`). */
  function Assign(node: Node, key: string, v: Slot): Node
  {
    match node
    case Rec(props) => Rec(props[key := v])
    case List(items) => if ParseIndex(key).Some? then List(ListWrite(items, ParseIndex(key).value, v)) else node
  }

  /** After `node[key] = v`, key reads v (on an array, when key is an
      index), and every other key but an array's `length` reads as before. */
  lemma AssignReads(nodes: Nodes, a: Addr, key: string, v: Slot, other: string)
    requires a in nodes
    ensures var nodes' := nodes[a := Assign(nodes[a], key, v)];
      ((nodes[a].Rec? || ParseIndex(key).Some?) ==> ReadProp(nodes', Ref(a), key) == v) &&
      (other != key && (nodes[a].Rec? || other != "length") ==>
        ReadProp(nodes', Ref(a), other) == ReadProp(nodes, Ref(a), other))
  {
    if nodes[a].List? && ParseIndex(key).Some? && ParseIndex(other).Some? && other != key {
      if ParseIndex(key) == ParseIndex(other) {
        ParseIndexInjective(key, other);
      }
    }
  }

  /** Path q never reads, on object t, the written key or an array's length. */
  predicate Avoids(nodes: Nodes, s: Slot, q: seq<string>, t: Addr, key: string)
    decreases |q|
  {
    q == [] ||
    ((s != Ref(t) || (q[0] != key && q[0] != "length")) && Avoids(nodes, ReadProp(nodes, s, q[0]), q[1..], t, key))
  }

  /** A write to one object leaves every path that avoids the written slot
      reading as before, wherever it passes. */
  lemma {:induction false} WriteFrame(nodes: Nodes, t: Addr, key: string, v: Slot, s: Slot, q: seq<string>)
    requires t in nodes && Avoids(nodes, s, q, t, key)
    ensures GetIn(nodes[t := Assign(nodes[t], key, v)], s, q) == GetIn(nodes, s, q)
    decreases |q|
  {
    if q != [] {
      var nodes' := nodes[t := Assign(nodes[t], key, v)];
      if s == Ref(t) {
        AssignReads(nodes, t, key, v, q[0]);
      }
      assert ReadProp(nodes', s, q[0]) == ReadProp(nodes, s, q[0]);
      WriteFrame(nodes, t, key, v, ReadProp(nodes, s, q[0]), q[1..]);
    }
  }

  /** Every path that reaches the written object, and avoids the written slot
      on the way, reads the new value under the key: aliases see the write. */
  lemma AliasSeesWrite(nodes: Nodes, t: Addr, key: string, v: Slot, s: Slot, q: seq<string>)
    requires t in nodes && GetIn(nodes, s, q) == Ref(t) && Avoids(nodes, s, q, t, key)
    requires nodes[t].Rec? || ParseIndex(key).Some?
    ensures GetIn(nodes[t := Assign(nodes[t], key, v)], s, q + [key]) == v
  {
    var nodes' := nodes[t := Assign(nodes[t], key, v)];
    WriteFrame(nodes, t, key, v, s, q);
    GetInSnoc(nodes', s, q, key);
    AssignReads(nodes, t, key, v, key);
  }

  /** The last segment of a path: the key a write assigns. */
  function LastSegment(path: string): string
  {
    var segs := PathToArray(path);
    segs[|segs| - 1]
  }

  /** What the segments before the last lead to from the root: the object a
      write assigns on. */
  function ParentOf(nodes: Nodes, root: Addr, path: string): Slot
  {
    var segs := PathToArray(path);
    GetIn(nodes, Ref(root), segs[..|segs| - 1])
  }

  /** The memory the objects live in. */
  class Heap {
    var nodes: Nodes

    constructor(nodes: Nodes)
      ensures this.nodes == nodes
    {
      this.nodes := nodes;
    }

    /** `set(object, path, value)` of lib/utils.ts: finds the container the
        segments before the last lead to and assigns the last segment there,
        unless it is empty; assigning on a non-object throws. Returns the
        very root it was given. */
    method Set(root: Addr, path: string, value: Slot) returns (r: Result<Addr>)
      requires root in nodes
      modifies this
      ensures r.Ok? ==> r.value == root
      ensures r.Err? <==> LastSegment(path) != "" && !IsLive(old(nodes), ParentOf(old(nodes), root, path))
      ensures r.Ok? && LastSegment(path) != "" ==> var t := ParentOf(old(nodes), root, path).addr;
        nodes == old(nodes)[t := Assign(old(nodes)[t], LastSegment(path), value)]
      ensures r.Err? || LastSegment(path) == "" ==> nodes == old(nodes)
    {
      var segs := PathToArray(path);
      var tail := segs[|segs| - 1];
      var head := segs[..|segs| - 1];
      var target := if |head| > 0 then GetIn(nodes, Ref(root), head) else Ref(root);
      assert target == ParentOf(nodes, root, path) && tail == LastSegment(path);
      if tail == "" {
        r := Ok(root);
      } else if IsLive(nodes, target) {
        nodes := nodes[target.addr := Assign(nodes[target.addr], tail, value)];
        r := Ok(root);
      } else {
        r := Err(TypeError);
      }
    }

    /** `setIn(object, path, value)` of src/form/utils.ts: walks every
        segment but the last, then assigns the last one (even an empty one)
        on the object reached; assigning on a non-object throws. Returns
        that object: the innermost parent, which is the root only for a
        single segment. */
    method SetIn(root: Addr, path: string, value: Slot) returns (r: Result<Addr>)
      requires root in nodes
      modifies this
      ensures r.Ok? <==> IsLive(old(nodes), ParentOf(old(nodes), root, path))
      ensures r.Ok? ==> r.value == ParentOf(old(nodes), root, path).addr
      ensures r.Ok? ==> nodes == old(nodes)[r.value := Assign(old(nodes)[r.value], LastSegment(path), value)]
      ensures |PathToArray(path)| == 1 && r.Ok? ==> r.value == root
      ensures r.Err? ==> nodes == old(nodes)
    {
      ghost var segs := PathToArray(path);
      var stack := PathToArray(path);
      var current := Ref(root);
      ghost var walked: seq<string> := [];
      while |stack| > 1
        invariant |stack| >= 1 && walked + stack == segs
        invariant current == GetIn(nodes, Ref(root), walked) && nodes == old(nodes)
        decreases |stack|
      {
        GetInSnoc(nodes, Ref(root), walked, stack[0]);
        current := ReadProp(nodes, current, stack[0]);
        walked := walked + [stack[0]];
        stack := stack[1..];
      }
      assert walked == segs[..|segs| - 1] && stack[0] == segs[|segs| - 1];
      assert current == ParentOf(nodes, root, path) && stack[0] == LastSegment(path);
      if IsLive(nodes, current) {
        nodes := nodes[current.addr := Assign(nodes[current.addr], stack[0], value)];
        r := Ok(current.addr);
      } else {
        r := Err(TypeError);
      }
    }
  }

  /** A miss on the way leaves nothing to assign on: both writes throw. */
  lemma MissingIntermediate(nodes: Nodes, s: Slot, p: seq<string>, i: nat)
    requires i <= |p| && GetIn(nodes, s, p[..i]) == Missing
    ensures !IsLive(nodes, GetIn(nodes, s, p))
  {
    GetInPastMissing(nodes, p[i..]);
    assert p == p[..i] + p[i..];
    GetInAppend(nodes, s, p[..i], p[i..]);
  }

  lemma {:induction false} GetInAppend(nodes: Nodes, s: Slot, p: seq<string>, q: seq<string>)
    ensures GetIn(nodes, s, p + q) == GetIn(nodes, GetIn(nodes, s, p), q)
    decreases |p|
  {
    if p == [] {
      assert p + q == q;
    } else {
      assert (p + q)[1..] == p[1..] + q;
      GetInAppend(nodes, ReadProp(nodes, s, p[0]), p[1..], q);
    }
  }

  /** The test objects `{ a: { b: { c: "TEST" } } }` and
      `{ a: { b: [{ c: 1 }, { c: 2 }] } }`, laid out in a heap. */
  function NestedHeap(): Nodes
  {
    map[0 := Rec(map["a" := Ref(1)]), 1 := Rec(map["b" := Ref(2)]), 2 := Rec(map["c" := Leaf(Str("TEST"))])]
  }

  function MixedHeap(): Nodes
  {
    map[0 := Rec(map["a" := Ref(1)]), 1 := Rec(map["b" := Ref(2)]), 2 := List([Ref(3), Ref(4)]),
        3 := Rec(map["c" := Leaf(Num(1))]), 4 := Rec(map["c" := Leaf(Num(2))])]
  }

  /** `setIn(object, "a.b", "1")` updates the object at `a` and returns it,
      not the root. */
  method SetInReturnsParent(path: string) returns (parent: Addr, after: Nodes)
    requires path == "a" + "." + "b"
    ensures parent == 1
    ensures after == NestedHeap()[1 := Rec(map["b" := Leaf(Str("1"))])]
  {
    var heap := new Heap(NestedHeap());
    assert Join(["a", "b"]) == path;
    assert AllNoDot(["a", "b"]);
    PathToArrayUnique(path, ["a", "b"]);
    assert ["a", "b"][..1] == ["a"];
    assert ReadProp(NestedHeap(), Ref(0), "a") == Ref(1);
    assert GetIn(NestedHeap(), Ref(0), ["a"]) == Ref(1);
    assert ParentOf(NestedHeap(), 0, path) == Ref(1) && LastSegment(path) == "b";
    var r := heap.SetIn(0, path, Leaf(Str("1")));
    parent := r.value;
    after := heap.nodes;
    assert Assign(NestedHeap()[1], "b", Leaf(Str("1"))) == Rec(map["b" := Leaf(Str("1"))]) by {
      assert map["b" := Ref(2)]["b" := Leaf(Str("1"))] == map["b" := Leaf(Str("1"))];
    }
  }

  /** `set(mixed, "a.b.1.c", 10)` returns the root and rewrites only the
      second element of the array. */
  method SetMixedReturnsRoot(path: string) returns (root: Addr, after: Nodes)
    requires path == "a" + "." + "b" + "." + "1" + "." + "c"
    ensures root == 0
    ensures after == MixedHeap()[4 := Rec(map["c" := Leaf(Num(10))])]
  {
    var heap := new Heap(MixedHeap());
    DottedPath4("a", "b", "1", "c");
    assert ["a", "b", "1", "c"][..3] == ["a", "b", "1"];
    MixedTarget();
    assert ParentOf(MixedHeap(), 0, path) == Ref(4) && LastSegment(path) == "c";
    var r := heap.Set(0, path, Leaf(Num(10)));
    root := r.value;
    after := heap.nodes;
    assert Assign(MixedHeap()[4], "c", Leaf(Num(10))) == Rec(map["c" := Leaf(Num(10))]) by {
      assert map["c" := Leaf(Num(2))]["c" := Leaf(Num(10))] == map["c" := Leaf(Num(10))];
    }
  }

  /** In the mixed object, `a.b.1` is the second element of the array. */
  lemma MixedTarget()
    ensures GetIn(MixedHeap(), Ref(0), ["a", "b", "1"]) == Ref(4)
  {
    NatToStringIsIndex(1);
    assert NatToString(1) == "1";
    var nodes := MixedHeap();
    assert ReadProp(nodes, Ref(2), "1") == Ref(4);
    assert GetIn(nodes, Ref(2), ["1"]) == Ref(4);
  }
}
