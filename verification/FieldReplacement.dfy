/** src/modules/common/utils/objectRecursiveFunctions.util.ts: the field check and the in-place
    replacement, proved against a mask on heaps and then against a mask on trees. */
module FieldReplacement {
  import opened ObjectGraph

  /** The property names a caller may list: names an array never has among its elements. */
  ghost predicate FieldNames(fields: seq<string>) {
    forall f | f in fields :: !IsIndex(f)
  }

  /** One object after replacement: every listed slot that holds something holds v. */
  function Mask(slots: map<string, Value>, fields: seq<string>, v: Value): map<string, Value> {
    map k | k in slots :: if k in fields && slots[k] != Undefined then v else slots[k]
  }

  ghost function MaskHeap(h: Heap, d: set<Node>, fields: seq<string>, v: Value): Heap {
    map m | m in h :: if m in d then Mask(h[m], fields, v) else h[m]
  }

  ghost function MaskTree(t: Tree, fields: seq<string>, v: Value): Tree {
    match t
    case Leaf(_) => t
    case Branch(isArray, slots) =>
      Branch(isArray, map k | k in slots ::
        if k in fields && slots[k] != Leaf(Undefined) then Leaf(v) else MaskTree(slots[k], fields, v))
  }

  /** Some object in the tree owns a listed name. */
  ghost predicate HasField(t: Tree, fields: seq<string>) {
    t.Branch? && exists k | k in t.slots :: k in fields || HasField(t.slots[k], fields)
  }

  ghost predicate OwnsField(h: Heap, d: set<Node>, fields: seq<string>) {
    exists m, k | m in h && m in d && k in h[m] :: k in fields
  }

  /** Node by node and slot by slot: only listed slots of nodes in d change, and only those that held
      something; nothing appears or goes. */
  lemma MaskHeapAt(h: Heap, d: set<Node>, fields: seq<string>, v: Value, m: Node)
    requires m in h
    ensures var g: Heap := MaskHeap(h, d, fields, v);
            && g.Keys == h.Keys && g[m].Keys == h[m].Keys
            && (m !in d ==> g[m] == h[m])
            && (forall k | k in h[m] && m in d && k in fields && h[m][k] != Undefined :: g[m][k] == v)
            && (forall k | k in h[m] && (k !in fields || h[m][k] == Undefined) :: g[m][k] == h[m][k])
  {}

  // ---------- masking a heap part by part ----------

  lemma MaskKeepsAcyclic(h: Heap, rank: map<Node, nat>, d: set<Node>, fields: seq<string>, v: Value)
    requires Acyclic(h, rank) && !v.Ref?
    ensures Acyclic(MaskHeap(h, d, fields, v), rank)
  {
    var g: Heap := MaskHeap(h, d, fields, v);
    forall n, k | n in g && k in g[n] && g[n][k].Ref?
      ensures k in h[n] && g[n][k] == h[n][k]
    {}
  }

  /** Masking never cuts a path that ends outside a closed masked part. */
  lemma {:induction false} ReachAfterMask(h: Heap, rank: map<Node, nat>, d: set<Node>, n: Node, fields: seq<string>,
                                          v: Value)
    requires Acyclic(h, rank) && n in h && !v.Ref? && ClosedIn(h, d)
    requires Acyclic(MaskHeap(h, d, fields, v), rank)
    ensures var r, r' := Reach(h, rank, n), Reach(MaskHeap(h, d, fields, v), rank, n);
            r' <= r <= d + r'
    decreases rank[n]
  {
    var g: Heap := MaskHeap(h, d, fields, v);
    assert Kids(g, n) <= Kids(h, n) by {
      forall c | c in Kids(g, n) ensures c in Kids(h, n) {
        var k :| k in g[n] && g[n][k].Ref? && g[n][k].node == c;
        assert h[n][k] == g[n][k];
      }
    }
    forall c | c in Kids(h, n) {
      ReachAfterMask(h, rank, d, c, fields, v);
    }
    if n in d {
      ReachIsLeastClosed(h, rank, n, d);
    } else {
      assert Kids(g, n) == Kids(h, n);
    }
  }

  lemma MaskTwice(h: Heap, d: set<Node>, r: set<Node>, r': set<Node>, fields: seq<string>, v: Value)
    requires v != Undefined && r' <= r <= d + r'
    ensures MaskHeap(MaskHeap(h, d, fields, v), r', fields, v) == MaskHeap(h, d + r, fields, v)
  {
    forall m | m in h ensures Mask(Mask(h[m], fields, v), fields, v) == Mask(h[m], fields, v) {
      var once := Mask(h[m], fields, v);
      assert Mask(once, fields, v).Keys == once.Keys;
    }
  }

  /** Masking what one node reaches, after a closed part was masked, masks the union. */
  lemma MaskUnion(h: Heap, rank: map<Node, nat>, d: set<Node>, n: Node, fields: seq<string>, v: Value)
    requires Acyclic(h, rank) && n in h && !v.Ref? && v != Undefined && ClosedIn(h, d)
    ensures var g := MaskHeap(h, d, fields, v);
            && Acyclic(g, rank)
            && MaskHeap(g, Reach(g, rank, n), fields, v) == MaskHeap(h, d + Reach(h, rank, n), fields, v)
  {
    MaskKeepsAcyclic(h, rank, d, fields, v);
    ReachAfterMask(h, rank, d, n, fields, v);
    MaskTwice(h, d, Reach(h, rank, n), Reach(MaskHeap(h, d, fields, v), rank, n), fields, v);
  }

  lemma ClosedUnion(h: Heap, rank: map<Node, nat>, d: set<Node>, n: Node)
    requires Acyclic(h, rank) && n in h && ClosedIn(h, d)
    ensures ClosedIn(h, d + Reach(h, rank, n))
  {
    ReachIsLeastClosed(h, rank, n, {});
  }

  lemma MaskOneMore(h: Heap, d: set<Node>, n: Node, fields: seq<string>, v: Value)
    requires n in h && n !in d
    ensures MaskHeap(h, d, fields, v)[n := Mask(h[n], fields, v)] == MaskHeap(h, d + {n}, fields, v)
  {}

  lemma MaskSnoc(slots: map<string, Value>, fields: seq<string>, f: string, v: Value)
    requires v != Undefined
    ensures var once := Mask(slots, fields, v);
            Mask(slots, fields + [f], v) == if f in once && once[f] != Undefined then once[f := v] else once
  {}

  method ApplyFieldReplacement(n: Node, fields: seq<string>, v: Value, ghost s: set<Node>)
    requires v != Undefined && n in s
    modifies n
    ensures Snapshot(s) == old(Snapshot(s))[n := Mask(old(n.slots), fields, v)]
  {
    var i := 0;
    while i < |fields|
      invariant 0 <= i <= |fields|
      invariant n.slots == Mask(old(n.slots), fields[..i], v)
    {
      MaskSnoc(old(n.slots), fields[..i], fields[i], v);
      assert fields[..i + 1] == fields[..i] + [fields[i]];
      if fields[i] in n.slots && n.slots[fields[i]] != Undefined {
        n.slots := n.slots[fields[i] := v];
      }
      i := i + 1;
    }
    assert fields[..i] == fields;
  }

  lemma {:induction false} ReachRanks(h: Heap, rank: map<Node, nat>, n: Node)
    requires Acyclic(h, rank) && n in h
    ensures forall m | m in Reach(h, rank, n) :: rank[m] <= rank[n]
    decreases rank[n]
  {
    forall c | c in Kids(h, n) {
      ReachRanks(h, rank, c);
    }
  }

  /** An array is left alone by the mask, so it may be added to or taken from the masked part. */
  lemma ArrayUnmasked(h: Heap, d: set<Node>, a: Node, fields: seq<string>, v: Value)
    requires WellFormed(h) && a in h && a.isArray && FieldNames(fields)
    ensures Mask(h[a], fields, v) == h[a]
    ensures MaskHeap(h, d + {a}, fields, v) == MaskHeap(h, d, fields, v)
    ensures MaskHeap(h, d, fields, v)[a] == h[a]
  {}

  /** Where a loop over the slots of n stands: all but the slots in keys are followed, the masked
      part grew from base to done, and n itself is still as it was. */
  ghost predicate Progress(h: Heap, rank: map<Node, nat>, n: Node, keys: set<string>, base: set<Node>, done: set<Node>)
    requires Acyclic(h, rank) && n in h
  {
    && keys <= h[n].Keys
    && ClosedIn(h, done) && base <= done <= base + Reach(h, rank, n)
    && (n in done ==> n in base)
    && forall k | k in h[n] && k !in keys && h[n][k].Ref? :: h[n][k].node in done
  }

  ghost function Followed(h: Heap, rank: map<Node, nat>, done: set<Node>, v: Value): set<Node>
    requires Acyclic(h, rank) && (v.Ref? ==> v.node in h)
  {
    if v.Ref? then done + Reach(h, rank, v.node) else done
  }

  lemma ProgressStep(h: Heap, rank: map<Node, nat>, n: Node, keys: set<string>, key: string, base: set<Node>,
                     done: set<Node>)
    requires Acyclic(h, rank) && n in h && Progress(h, rank, n, keys, base, done) && key in keys
    ensures Progress(h, rank, n, keys - {key}, base, Followed(h, rank, done, h[n][key]))
  {
    if h[n][key].Ref? {
      var c := h[n][key].node;
      assert c in Kids(h, n);
      ClosedUnion(h, rank, done, c);
      ReachRanks(h, rank, c);
    }
  }

  lemma ProgressEnd(h: Heap, rank: map<Node, nat>, n: Node, base: set<Node>, done: set<Node>)
    requires Acyclic(h, rank) && n in h && Progress(h, rank, n, {}, base, done)
    ensures base + Reach(h, rank, n) == done + {n} && ClosedIn(h, done + {n})
  {
    ReachIsLeastClosed(h, rank, n, done + {n});
  }

  method ReplaceFields(obj: Value, fields: seq<string>, v: Value, ghost s: set<Node>, ghost rank: map<Node, nat>)
    returns (r: Value)
    requires obj.Undefined? || obj.Null? || (obj.Ref? && obj.node in s)
    requires Acyclic(Snapshot(s), rank) && FieldNames(fields) && !v.Ref? && v != Undefined
    modifies s
    ensures r == if obj.Ref? then obj else Null
    ensures Snapshot(s) == if obj.Ref? then
              MaskHeap(old(Snapshot(s)), Reach(old(Snapshot(s)), rank, obj.node), fields, v)
            else old(Snapshot(s))
    decreases if obj.Ref? then rank[obj.node] + 1 else 0, 1
  {
    if !obj.Ref? {
      return Null;
    }
    ghost var h := Snapshot(s);
    ghost var below := ReplaceBelow(obj.node, fields, v, s, rank);
    ghost var g := Snapshot(s);
    assert obj.node.slots == g[obj.node];
    ApplyFieldReplacement(obj.node, fields, v, s);
    MaskOneMore(h, below, obj.node, fields, v);
    return obj;
  }

  /** The loop over the slots of an object, before its own listed slots are replaced. */
  method ReplaceBelow(n: Node, fields: seq<string>, v: Value, ghost s: set<Node>, ghost rank: map<Node, nat>)
    returns (ghost below: set<Node>)
    requires n in s && Acyclic(Snapshot(s), rank) && FieldNames(fields) && !v.Ref? && v != Undefined
    modifies s
    ensures n !in below && below + {n} == Reach(old(Snapshot(s)), rank, n)
    ensures Snapshot(s) == MaskHeap(old(Snapshot(s)), below, fields, v)
    decreases rank[n] + 1, 0
  {
    ghost var h := Snapshot(s);
    below := {};
    var keys := n.slots.Keys;
    assert MaskHeap(h, {}, fields, v) == h;
    while keys != {}
      invariant Progress(h, rank, n, keys, {}, below)
      invariant Snapshot(s) == MaskHeap(h, below, fields, v)
      decreases keys
    {
      var key :| key in keys;
      assert n.slots == Snapshot(s)[n];
      var value := n.slots[key];
      ProgressStep(h, rank, n, keys, key, {}, below);
      ReplaceInSlot(value, fields, v, s, rank, h, below);
      keys, below := keys - {key}, Followed(h, rank, below, value);
    }
    ProgressEnd(h, rank, n, {}, below);
  }

  /** One slot of the object: an array is searched item by item, an object as a whole. */
  method ReplaceInSlot(value: Value, fields: seq<string>, v: Value, ghost s: set<Node>, ghost rank: map<Node, nat>,
                       ghost h: Heap, ghost done: set<Node>)
    requires Acyclic(h, rank) && h.Keys == s && (value.Ref? ==> value.node in h)
    requires FieldNames(fields) && !v.Ref? && v != Undefined
    requires ClosedIn(h, done) && Snapshot(s) == MaskHeap(h, done, fields, v)
    modifies s
    ensures Snapshot(s) == MaskHeap(h, Followed(h, rank, done, value), fields, v)
    decreases if value.Ref? then rank[value.node] + 1 else 0, 2
  {
    if value.Ref? {
      if value.node.isArray {
        ReplaceInItems(value.node, fields, v, s, rank, h, done);
      } else {
        MaskUnion(h, rank, done, value.node, fields, v);
        var _ := ReplaceFields(value, fields, v, s, rank);
      }
    }
  }

  /** The callback over the items of an array that replaceFields finds in a slot. */
  method ReplaceInItems(a: Node, fields: seq<string>, v: Value, ghost s: set<Node>, ghost rank: map<Node, nat>,
                        ghost h: Heap, ghost base: set<Node>)
    requires Acyclic(h, rank) && h.Keys == s && a in h && a.isArray
    requires FieldNames(fields) && !v.Ref? && v != Undefined
    requires ClosedIn(h, base) && Snapshot(s) == MaskHeap(h, base, fields, v)
    modifies s
    ensures Snapshot(s) == MaskHeap(h, base + Reach(h, rank, a), fields, v)
    decreases rank[a] + 1, 0
  {
    ghost var done := base;
    ArrayUnmasked(h, done, a, fields, v);
    assert a.slots == Snapshot(s)[a];
    var keys := a.slots.Keys;
    while keys != {}
      invariant Progress(h, rank, a, keys, base, done)
      invariant Snapshot(s) == MaskHeap(h, done, fields, v)
      decreases keys
    {
      var key :| key in keys;
      ArrayUnmasked(h, done, a, fields, v);
      assert a.slots == Snapshot(s)[a];
      var item := a.slots[key];
      ProgressStep(h, rank, a, keys, key, base, done);
      if item.Ref? {
        MaskUnion(h, rank, done, item.node, fields, v);
        var _ := ReplaceFields(item, fields, v, s, rank);
      }
      keys, done := keys - {key}, Followed(h, rank, done, item);
    }
    ProgressEnd(h, rank, a, base, done);
    ArrayUnmasked(h, done, a, fields, v);
  }

  // ---------- the field check ----------

  predicate HasFieldsAtCurrentObjectLevel(slots: map<string, Value>, fields: seq<string>) {
    exists k :: k in slots && k in fields
  }

  method CheckFieldsExistence(obj: Value, fields: seq<string>, ghost s: set<Node>, ghost rank: map<Node, nat>)
    returns (found: bool)
    requires Acyclic(Snapshot(s), rank) && (obj.Ref? ==> obj.node in s) && FieldNames(fields)
    ensures found <==> HasField(Unfold(Snapshot(s), rank, obj), fields)
    decreases if obj.Ref? then rank[obj.node] + 1 else 0
  {
    if !obj.Ref? {
      return false;
    }
    ghost var h := Snapshot(s);
    var n := obj.node;
    assert n.slots == h[n];
    if HasFieldsAtCurrentObjectLevel(n.slots, fields) {
      return true;
    }
    var keys := n.slots.Keys;
    while keys != {}
      invariant keys <= h[n].Keys
      invariant forall k | k in h[n] && k !in keys :: !HasField(Unfold(h, rank, h[n][k]), fields)
      decreases keys
    {
      var key :| key in keys;
      keys := keys - {key};
      var value := n.slots[key];
      if value.Ref? {
        var here: bool;
        if value.node.isArray {
          here := CheckSomeItem(value.node, fields, s, rank);
        } else {
          here := CheckFieldsExistence(value, fields, s, rank);
        }
        if here {
          assert key in Unfold(h, rank, obj).slots;
          return true;
        }
      }
    }
    return false;
  }

  /** Whether the callback of checkFieldsExistence accepts some item of an array. */
  method CheckSomeItem(a: Node, fields: seq<string>, ghost s: set<Node>, ghost rank: map<Node, nat>)
    returns (found: bool)
    requires Acyclic(Snapshot(s), rank) && a in s && a.isArray && FieldNames(fields)
    ensures found <==> HasField(Unfold(Snapshot(s), rank, Ref(a)), fields)
    decreases rank[a] + 1
  {
    ghost var h := Snapshot(s);
    assert a.slots == h[a];
    var keys := a.slots.Keys;
    while keys != {}
      invariant keys <= h[a].Keys
      invariant forall k | k in h[a] && k !in keys :: !HasField(Unfold(h, rank, h[a][k]), fields)
      decreases keys
    {
      var key :| key in keys;
      keys := keys - {key};
      var here := CheckFieldsExistence(a.slots[key], fields, s, rank);
      if here {
        assert key in Unfold(h, rank, Ref(a)).slots;
        return true;
      }
    }
    return false;
  }

  // ---------- what the mask means on trees ----------

  /** The check answers for every node within reach. */
  lemma {:induction false} HasFieldIffOwned(h: Heap, rank: map<Node, nat>, n: Node, fields: seq<string>)
    requires Acyclic(h, rank) && n in h
    ensures HasField(Unfold(h, rank, Ref(n)), fields) <==> OwnsField(h, Reach(h, rank, n), fields)
    decreases rank[n]
  {
    forall c | c in Kids(h, n) {
      HasFieldIffOwned(h, rank, c, fields);
    }
    var t := Unfold(h, rank, Ref(n));
    if HasField(t, fields) {
      var k :| k in t.slots && (k in fields || HasField(t.slots[k], fields));
      if k !in fields {
        assert t.slots[k] == Unfold(h, rank, h[n][k]);
        var c := h[n][k].node;
        assert c in Kids(h, n);
        var m, j :| m in h && m in Reach(h, rank, c) && j in h[m] && j in fields;
        assert m in Reach(h, rank, n);
      }
    }
    if OwnsField(h, Reach(h, rank, n), fields) {
      var m, j :| m in h && m in Reach(h, rank, n) && j in h[m] && j in fields;
      if m == n {
        assert j in t.slots;
      } else {
        var c :| c in Kids(h, n) && m in Reach(h, rank, c);
        var k :| k in h[n] && h[n][k] == Ref(c);
        assert k in t.slots && HasField(t.slots[k], fields);
      }
    }
  }

  /** In-place replacement over shared nodes is the mask on the tree. */
  lemma {:induction false} MaskHeapUnfolds(h: Heap, rank: map<Node, nat>, d: set<Node>, val: Value,
                                           fields: seq<string>, v: Value)
    requires Acyclic(h, rank) && (val.Ref? ==> val.node in h) && !v.Ref? && v != Undefined
    requires val.Ref? ==> Reach(h, rank, val.node) <= d
    ensures Acyclic(MaskHeap(h, d, fields, v), rank)
    ensures Unfold(MaskHeap(h, d, fields, v), rank, val) == MaskTree(Unfold(h, rank, val), fields, v)
    decreases if val.Ref? then rank[val.node] + 1 else 0
  {
    MaskKeepsAcyclic(h, rank, d, fields, v);
    if val.Ref? {
      var g: Heap := MaskHeap(h, d, fields, v);
      var n := val.node;
      var before, after := Unfold(h, rank, val), Unfold(g, rank, val);
      forall k | k in h[n] ensures after.slots[k] == MaskTree(before, fields, v).slots[k] {
        UnfoldSlot(h, rank, n, k);
        UnfoldSlot(g, rank, n, k);
        if !(k in fields && h[n][k] != Undefined) {
          if h[n][k].Ref? {
            assert h[n][k].node in Kids(h, n);
          }
          MaskHeapUnfolds(h, rank, d, h[n][k], fields, v);
        }
      }
    }
  }

  /** The fast path: without a listed field the mask changes nothing. */
  lemma {:induction false} MaskWithoutField(t: Tree, fields: seq<string>, v: Value)
    requires !HasField(t, fields)
    ensures MaskTree(t, fields, v) == t
  {
    if t.Branch? {
      forall k | k in t.slots ensures MaskTree(t, fields, v).slots[k] == t.slots[k] {
        MaskWithoutField(t.slots[k], fields, v);
      }
    }
  }

  /** Masking by one list and then by another is masking once by both. */
  lemma {:induction false} MaskTreeTwice(t: Tree, first: seq<string>, second: seq<string>, v: Value)
    requires v != Undefined
    ensures MaskTree(MaskTree(t, first, v), second, v) == MaskTree(t, first + second, v)
  {
    if t.Branch? {
      forall k | k in t.slots
        ensures MaskTree(MaskTree(t, first, v), second, v).slots[k] == MaskTree(t, first + second, v).slots[k]
      {
        MaskTreeTwice(t.slots[k], first, second, v);
      }
    }
  }

  /** Only which names are listed matters, not their order or repetition. */
  lemma {:induction false} MaskTreeBySet(t: Tree, first: seq<string>, second: seq<string>, v: Value)
    requires forall f :: f in first <==> f in second
    ensures MaskTree(t, first, v) == MaskTree(t, second, v)
  {
    if t.Branch? {
      forall k | k in t.slots ensures MaskTree(t, first, v).slots[k] == MaskTree(t, second, v).slots[k] {
        MaskTreeBySet(t.slots[k], first, second, v);
      }
    }
  }
}
