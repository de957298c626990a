/** src/modules/common/utils/masks.util.ts and the second mask in
    src/modules/events/queue/producers/AbstractProducer.producer.ts. */
module Masks {
  import opened ObjectGraph
  import opened FieldReplacement
  import opened ObjectClone

  const SENSITIVE_DATA_FIELDS: seq<string> := ["password", "newPassword", "cvv", "pin", "token"]
  const PRODUCER_DATA_FIELDS: seq<string> := ["password", "newPassword", "cvv", "pin"]
  const STRING_TO_REPLACE: Value := Text("***")

  lemma SensitiveNames()
    ensures FieldNames(SENSITIVE_DATA_FIELDS) && FieldNames(PRODUCER_DATA_FIELDS)
  {
    assert !('0' <= "password"[0] <= '9') && !('0' <= "newPassword"[0] <= '9');
    assert !('0' <= "cvv"[0] <= '9') && !('0' <= "pin"[0] <= '9') && !('0' <= "token"[0] <= '9');
  }

  /** The original nodes a masking call writes to: none, unless the clone was taken by hand. */
  ghost function Written(h: Heap, rank: map<Node, nat>, n: Node, fields: seq<string>): set<Node>
    requires Acyclic(h, rank) && n in h
  {
    if HasField(Unfold(h, rank, Ref(n)), fields) then Kept(h, rank, n) else {}
  }

  lemma MaskFixesIff(h: Heap, d: set<Node>, fields: seq<string>, v: Value)
    ensures MaskHeap(h, d, fields, v) == h <==>
            forall m, k | m in h && m in d && k in h[m] && k in fields :: h[m][k] == Undefined || h[m][k] == v
  {
    var g: Heap := MaskHeap(h, d, fields, v);
    forall m | m in h ensures g[m] == h[m] <==>
      (m in d ==> forall k | k in h[m] && k in fields :: h[m][k] == Undefined || h[m][k] == v)
    {
      if m in d && g[m] == h[m] {
        assert forall k | k in h[m] :: Mask(h[m], fields, v)[k] == h[m][k];
      }
    }
    if m :| m in h && g[m] != h[m] {
      assert g != h;
    }
  }

  /** The original is left as it was exactly when no object behind an array of an uncloneable object
      has a listed slot still to be replaced; so data the structured clone accepts is left as it was. */
  lemma OriginalUntouchedIff(h: Heap, rank: map<Node, nat>, n: Node, fields: seq<string>, v: Value)
    requires Acyclic(h, rank) && n in h
    ensures MaskHeap(h, Written(h, rank, n, fields), fields, v) == h <==>
            forall m, k | m in h && KeptBehind(h, rank, n, m) && k in h[m] && k in fields ::
              h[m][k] == Undefined || h[m][k] == v
    ensures Cloneable(h, Reach(h, rank, n)) ==> MaskHeap(h, Written(h, rank, n, fields), fields, v) == h
  {
    MaskFixesIff(h, Written(h, rank, n, fields), fields, v);
    assert Cloneable(h, Reach(h, rank, n)) ==> Kept(h, rank, n) == {};
    forall m, k | m in h && k in h[m] && k in fields
      ensures m in Written(h, rank, n, fields) <==> KeptBehind(h, rank, n, m)
    {
      WrittenIffBehind(h, rank, n, m, k, fields);
    }
  }

  /** A node with a listed slot is written to exactly when the fallback keeps it. */
  lemma WrittenIffBehind(h: Heap, rank: map<Node, nat>, n: Node, m: Node, k: string, fields: seq<string>)
    requires Acyclic(h, rank) && n in h && m in h && k in h[m] && k in fields
    ensures m in Written(h, rank, n, fields) <==> KeptBehind(h, rank, n, m)
  {
    KeptIffBehind(h, rank, n, m);
    KeptIsReached(h, rank, n);
    HasFieldIffOwned(h, rank, n, fields);
  }

  /** maskObjectSensitiveData and the producer's maskSensitiveData: check, clone, replace. The
      result reads as the masked tree of the input; what happens to the input is Written. */
  method MaskObject(data: Value, fields: seq<string>, ghost s: set<Node>, ghost h: Heap, ghost rank: map<Node, nat>)
    returns (r: Value, ghost made: set<Node>, ghost g: Heap, ghost rank': map<Node, nat>)
    requires data.Ref? && data.node in s && Snapshot(s) == h && FieldNames(fields)
    requires Acyclic(h, rank) && rank.Keys == s
    modifies s
    ensures fresh(made) && Snapshot(s + made) == g && Acyclic(g, rank')
    ensures Snapshot(s) == MaskHeap(h, Written(h, rank, data.node, fields), fields, STRING_TO_REPLACE)
    ensures r.Ref? && r.node in g
    ensures Unfold(g, rank', r).slots == MaskTree(Unfold(h, rank, data), fields, STRING_TO_REPLACE).slots
    ensures Cloneable(h, Reach(h, rank, data.node)) ==> r.node.isArray == data.node.isArray
    ensures !HasField(Unfold(h, rank, data), fields) ==> r == data && g == h
    ensures HasField(Unfold(h, rank, data), fields) ==> r.node in made
  {
    var hasSensitiveData := CheckFieldsExistence(data, fields, s, rank);
    if !hasSensitiveData {
      r, made, g, rank' := data, {}, h, rank;
      assert s + made == s;
      MaskWithoutField(Unfold(h, rank, data), fields, STRING_TO_REPLACE);
      MaskNothing(h, fields, STRING_TO_REPLACE);
      return;
    }
    r, made, g, rank' := MaskClone(data, fields, s, h, rank);
  }

  /** The slow path: replace in a clone. */
  method MaskClone(data: Value, fields: seq<string>, ghost s: set<Node>, ghost h: Heap, ghost rank: map<Node, nat>)
    returns (r: Value, ghost made: set<Node>, ghost g: Heap, ghost rank': map<Node, nat>)
    requires data.Ref? && data.node in s && Snapshot(s) == h && FieldNames(fields)
    requires Acyclic(h, rank) && rank.Keys == s
    modifies s
    ensures fresh(made) && Snapshot(s + made) == g && Acyclic(g, rank')
    ensures Snapshot(s) == MaskHeap(h, Kept(h, rank, data.node), fields, STRING_TO_REPLACE)
    ensures r.Ref? && r.node in made
    ensures Unfold(g, rank', r).slots == MaskTree(Unfold(h, rank, data), fields, STRING_TO_REPLACE).slots
    ensures Cloneable(h, Reach(h, rank, data.node)) ==> r.node.isArray == data.node.isArray
  {
    var newData;
    ghost var f;
    newData, made, f, rank' := CloneObject(data.node, s, h, rank);
    ghost var d := Reach(f, rank', newData);
    r := ReplaceFields(Ref(newData), fields, STRING_TO_REPLACE, s + made, rank');
    g := MaskHeap(f, d, fields, STRING_TO_REPLACE);
    MaskedClone(h, rank, data.node, f, rank', newData, fields, STRING_TO_REPLACE);
    SnapshotPart(s, made, g, MaskHeap(h, Kept(h, rank, data.node), fields, STRING_TO_REPLACE));
  }

  lemma SnapshotPart(s: set<Node>, made: set<Node>, g: Heap, part: Heap)
    requires Snapshot(s + made) == g && part.Keys == s && forall m | m in s :: m in g && g[m] == part[m]
    ensures Snapshot(s) == part
  {
    assert forall m | m in s :: Snapshot(s + made)[m] == m.slots;
  }

  lemma MaskNothing(h: Heap, fields: seq<string>, v: Value)
    ensures MaskHeap(h, {}, fields, v) == h
  {}

  lemma MaskedPart(h: Heap, f: Heap, d: set<Node>, kept: set<Node>, fields: seq<string>, v: Value)
    requires h.Keys <= f.Keys && (forall m | m in h :: f[m] == h[m]) && d * h.Keys == kept
    ensures forall m | m in h :: MaskHeap(f, d, fields, v)[m] == MaskHeap(h, kept, fields, v)[m]
  {
    forall m | m in h ensures m in d <==> m in kept {
      assert m in d * h.Keys <==> m in kept;
    }
  }

  lemma MaskedClone(h: Heap, rank: map<Node, nat>, n: Node, f: Heap, rank': map<Node, nat>, copy: Node,
                    fields: seq<string>, v: Value)
    requires Extends(h, rank, f, rank') && n in h && CloneOf(h, rank, n, f, rank', copy) && !v.Ref? && v != Undefined
    ensures var g := MaskHeap(f, Reach(f, rank', copy), fields, v);
            && Acyclic(g, rank')
            && (forall m | m in h :: m in g && g[m] == MaskHeap(h, Kept(h, rank, n), fields, v)[m])
            && Unfold(g, rank', Ref(copy)).slots == MaskTree(Unfold(h, rank, Ref(n)), fields, v).slots
  {
    MaskHeapUnfolds(f, rank', Reach(f, rank', copy), Ref(copy), fields, v);
    MaskedPart(h, f, Reach(f, rank', copy), Kept(h, rank, n), fields, v);
  }

  /** What a reader sees after masking, name by name: under the five sensitive names the mask, unless
      there was nothing, and everything else as before. */
  ghost predicate Hidden(before: map<string, Tree>, after: map<string, Tree>) {
    after.Keys == before.Keys && forall k | k in before :: HiddenAt(k, before[k], after[k])
  }

  ghost predicate HiddenAt(k: string, before: Tree, after: Tree)
    decreases before, 1
  {
    if k in {"password", "newPassword", "cvv", "pin", "token"} && before != Leaf(Undefined)
    then after == Leaf(Text("***"))
    else HiddenIn(before, after)
  }

  ghost predicate HiddenIn(before: Tree, after: Tree)
    decreases before, 0
  {
    match before
    case Leaf(_) => after == before
    case Branch(isArray, slots) =>
      && after.Branch? && after.isArray == isArray && after.slots.Keys == slots.Keys
      && forall k | k in slots :: HiddenAt(k, slots[k], after.slots[k])
  }

  lemma SensitiveField(k: string)
    ensures k in SENSITIVE_DATA_FIELDS <==> k in {"password", "newPassword", "cvv", "pin", "token"}
  {}

  lemma {:induction false} MaskHides(t: Tree)
    ensures HiddenIn(t, MaskTree(t, SENSITIVE_DATA_FIELDS, STRING_TO_REPLACE))
  {
    if t.Branch? {
      var after := MaskTree(t, SENSITIVE_DATA_FIELDS, STRING_TO_REPLACE);
      forall k | k in t.slots
        ensures HiddenAt(k, t.slots[k], after.slots[k])
      {
        SensitiveField(k);
        MaskHides(t.slots[k]);
      }
    }
  }

  /** The guard of maskObjectSensitiveData: null for everything that is not an object. */
  method MaskObjectSensitiveData(data: Value, ghost s: set<Node>, ghost h: Heap, ghost rank: map<Node, nat>)
    returns (r: Value, ghost made: set<Node>, ghost g: Heap, ghost rank': map<Node, nat>)
    requires (data.Ref? ==> data.node in s) && Snapshot(s) == h && Acyclic(h, rank) && rank.Keys == s
    modifies s
    ensures fresh(made) && Snapshot(s + made) == g && Acyclic(g, rank')
    ensures !data.Ref? ==> r == Null && g == h
    ensures data.Ref? ==>
              && (var written := Written(h, rank, data.node, SENSITIVE_DATA_FIELDS);
                  Snapshot(s) == MaskHeap(h, written, SENSITIVE_DATA_FIELDS, STRING_TO_REPLACE))
              && r.Ref? && r.node in g
              && Unfold(g, rank', r).slots ==
                 MaskTree(Unfold(h, rank, data), SENSITIVE_DATA_FIELDS, STRING_TO_REPLACE).slots
              && Hidden(Unfold(h, rank, data).slots, Unfold(g, rank', r).slots)
              && (Cloneable(h, Reach(h, rank, data.node)) ==> r.node.isArray == data.node.isArray)
              && (!HasField(Unfold(h, rank, data), SENSITIVE_DATA_FIELDS) ==> r == data && g == h)
              && (HasField(Unfold(h, rank, data), SENSITIVE_DATA_FIELDS) ==> r.node in made)
  {
    SensitiveNames();
    if data.Ref? {
      MaskHides(Unfold(h, rank, data));
    }
    if !data.Ref? {
      r, made, g, rank' := Null, {}, h, rank;
      assert s + made == s;
    } else {
      r, made, g, rank' := MaskObject(data, SENSITIVE_DATA_FIELDS, s, h, rank);
    }
  }

  /** A payload the producer masked and the interceptor masks again reads as masked once. */
  lemma ProducerThenInterceptor(t: Tree)
    ensures MaskTree(MaskTree(t, PRODUCER_DATA_FIELDS, STRING_TO_REPLACE), SENSITIVE_DATA_FIELDS, STRING_TO_REPLACE)
         == MaskTree(t, SENSITIVE_DATA_FIELDS, STRING_TO_REPLACE)
  {
    MaskTreeTwice(t, PRODUCER_DATA_FIELDS, SENSITIVE_DATA_FIELDS, STRING_TO_REPLACE);
    MaskTreeBySet(t, PRODUCER_DATA_FIELDS + SENSITIVE_DATA_FIELDS, SENSITIVE_DATA_FIELDS, STRING_TO_REPLACE);
  }

  /** A call that does write to its input: { log: () => {}, cards: [{ pin: '1234' }] }. */
  lemma KeptArrayIsMasked(data: Node, list: Node, item: Node)
    requires !data.isArray && list.isArray && !item.isArray && data != item
    ensures var h, rank := KeptArrayHeap(data, list, item), map[item := 0, list := 1, data := 2];
            && Acyclic(h, rank)
            && var written := Written(h, rank, data, SENSITIVE_DATA_FIELDS);
               MaskHeap(h, written, SENSITIVE_DATA_FIELDS, STRING_TO_REPLACE)[item]
               != h[item]
  {
    var h, rank := KeptArrayHeap(data, list, item), map[item := 0, list := 1, data := 2];
    KeptArrayAcyclic(data, list, item);
    ReachThrough(h, rank, list, "0", item);
    ReachThrough(h, rank, data, "cards", list);
    ReachThrough(h, rank, data, "cards", item);
    assert "log" in h[data] && h[data]["log"].Callable?;
    KeptThroughArray(h, rank, data, "cards", item);
    assert "pin" in h[item] && "pin" in SENSITIVE_DATA_FIELDS && Text("1234") != STRING_TO_REPLACE;
    WrittenIffBehind(h, rank, data, item, "pin", SENSITIVE_DATA_FIELDS);
  }

  ghost function KeptArrayHeap(data: Node, list: Node, item: Node): Heap {
    map[item := map["pin" := Text("1234")], list := map["0" := Ref(item)],
        data := map["log" := Callable("log"), "cards" := Ref(list)]]
  }

  lemma KeptArrayAcyclic(data: Node, list: Node, item: Node)
    requires !data.isArray && list.isArray && !item.isArray && data != item
    ensures var h := KeptArrayHeap(data, list, item);
            && Acyclic(h, map[item := 0, list := 1, data := 2])
            && h[data] == map["log" := Callable("log"), "cards" := Ref(list)]
            && h[list] == map["0" := Ref(item)] && h[item] == map["pin" := Text("1234")]
  {}

  lemma KeptThroughArray(h: Heap, rank: map<Node, nat>, n: Node, k: string, m: Node)
    requires Acyclic(h, rank) && n in h && !Cloneable(h, Reach(h, rank, n))
    requires k in h[n] && h[n][k].Ref? && h[n][k].node.isArray && m in Reach(h, rank, h[n][k].node)
    ensures KeptBehind(h, rank, n, m)
  {
    var a := h[n][k].node;
    assert a in Kids(h, n);
    assert LeadsTo(h, rank, Stop(n), a, m) && Stop(n).node == n;
  }
}
