/** cloneObject of src/modules/common/utils/objectRecursiveFunctions.util.ts. The structured clone
    copies a whole graph, sharing included, and refuses functions and symbols; the fallback copies
    object by object and keeps the arrays of the original. */
module ObjectClone {
  import opened ObjectGraph

  ghost predicate Cloneable(h: Heap, d: set<Node>) {
    forall m, k | m in h && m in d && k in h[m] :: !h[m][k].Callable?
  }

  /** The original nodes a clone still shares: those behind an array that the fallback met. */
  ghost function Kept(h: Heap, rank: map<Node, nat>, n: Node): (r: set<Node>)
    requires Acyclic(h, rank) && n in h
    ensures r <= h.Keys
    decreases rank[n]
  {
    if Cloneable(h, Reach(h, rank, n)) then {}
    else
      (set c, m | c in Kids(h, n) && c.isArray && m in Reach(h, rank, c) :: m) +
      (set c, m | c in Kids(h, n) && !c.isArray && m in Kept(h, rank, c) :: m)
  }

  /** What one slot of the original lends to the clone. */
  ghost function Lent(h: Heap, rank: map<Node, nat>, v: Value): set<Node>
    requires Acyclic(h, rank) && (v.Ref? ==> v.node in h)
  {
    if !v.Ref? then {} else if v.node.isArray then Reach(h, rank, v.node) else Kept(h, rank, v.node)
  }

  lemma KeptIsLent(h: Heap, rank: map<Node, nat>, n: Node, m: Node)
    requires Acyclic(h, rank) && n in h && !Cloneable(h, Reach(h, rank, n))
    ensures m in Kept(h, rank, n) <==> exists k :: k in h[n] && m in Lent(h, rank, h[n][k])
  {
    if k :| k in h[n] && m in Lent(h, rank, h[n][k]) {
      assert h[n][k].node in Kids(h, n);
    }
    if m in Kept(h, rank, n) {
      var c :| c in Kids(h, n) && m in Lent(h, rank, Ref(c));
      var k :| k in h[n] && h[n][k] == Ref(c);
    }
  }

  datatype Route = Stop(node: Node) | Via(node: Node, rest: Route)

  function End(r: Route): Node {
    if r.Stop? then r.node else End(r.rest)
  }

  /** A way along references that meets no array after its start. */
  ghost predicate IsObjectRoute(h: Heap, older r: Route) {
    && r.node in h
    && (r.Via? ==> IsObjectRoute(h, r.rest) && r.rest.node in Kids(h, r.node) && !r.rest.node.isArray)
  }

  /** From the object at the end of the route, which cannot be cloned, m is reached through array a. */
  ghost predicate LeadsTo(h: Heap, rank: map<Node, nat>, older r: Route, older a: Node, m: Node)
    requires Acyclic(h, rank)
  {
    IsObjectRoute(h, r) && End(r) in h && KeepsThrough(h, rank, End(r), a, m)
  }

  ghost predicate KeepsThrough(h: Heap, rank: map<Node, nat>, o: Node, older a: Node, m: Node)
    requires Acyclic(h, rank) && o in h
  {
    !Cloneable(h, Reach(h, rank, o)) && a in h && a in Kids(h, o) && a.isArray && m in Reach(h, rank, a)
  }

  /** Some object that cannot be cloned, at the end of such a route from n, has an array from which
      m can be reached. */
  ghost predicate KeptBehind(h: Heap, rank: map<Node, nat>, n: Node, m: Node)
    requires Acyclic(h, rank)
  {
    exists r, a :: LeadsTo(h, rank, r, a, m) && r.node == n
  }

  lemma KidReached(h: Heap, rank: map<Node, nat>, n: Node, c: Node)
    requires Acyclic(h, rank) && n in h && c in Kids(h, n)
    ensures Reach(h, rank, c) <= Reach(h, rank, n)
    ensures !Cloneable(h, Reach(h, rank, c)) ==> !Cloneable(h, Reach(h, rank, n))
  {}

  lemma {:induction false} KeptIsReached(h: Heap, rank: map<Node, nat>, n: Node)
    requires Acyclic(h, rank) && n in h
    ensures Kept(h, rank, n) <= Reach(h, rank, n)
    decreases rank[n]
  {
    forall c | c in Kids(h, n)
      ensures Kept(h, rank, c) <= Reach(h, rank, n) && Reach(h, rank, c) <= Reach(h, rank, n)
    {
      KeptIsReached(h, rank, c);
      KidReached(h, rank, n, c);
    }
  }

  lemma {:induction false} KeptIsBehind(h: Heap, rank: map<Node, nat>, n: Node, m: Node)
    requires Acyclic(h, rank) && n in h && m in Kept(h, rank, n)
    ensures KeptBehind(h, rank, n, m)
    decreases rank[n]
  {
    if a :| a in Kids(h, n) && a.isArray && m in Reach(h, rank, a) {
      assert LeadsTo(h, rank, Stop(n), a, m);
    } else {
      var c :| c in Kids(h, n) && !c.isArray && m in Kept(h, rank, c);
      KeptIsBehind(h, rank, c, m);
      var r, a :| LeadsTo(h, rank, r, a, m) && r.node == c;
      LeadsOn(h, rank, n, r, a, m);
    }
  }

  lemma LeadsOn(h: Heap, rank: map<Node, nat>, n: Node, r: Route, a: Node, m: Node)
    requires Acyclic(h, rank) && n in h && LeadsTo(h, rank, r, a, m) && r.node in Kids(h, n) && !r.node.isArray
    ensures LeadsTo(h, rank, Via(n, r), a, m)
  {}

  lemma KeptThroughKid(h: Heap, rank: map<Node, nat>, n: Node, c: Node, m: Node)
    requires Acyclic(h, rank) && n in h && c in Kids(h, n) && !Cloneable(h, Reach(h, rank, c))
    requires !c.isArray && m in Kept(h, rank, c)
    ensures !Cloneable(h, Reach(h, rank, n)) && m in Kept(h, rank, n)
  {
    KidReached(h, rank, n, c);
  }

  lemma {:induction false} BehindIsKept(h: Heap, rank: map<Node, nat>, r: Route, a: Node, m: Node)
    requires Acyclic(h, rank) && LeadsTo(h, rank, r, a, m)
    ensures !Cloneable(h, Reach(h, rank, r.node)) && m in Kept(h, rank, r.node)
    decreases r
  {
    if r.Via? {
      BehindIsKept(h, rank, r.rest, a, m);
      KeptThroughKid(h, rank, r.node, r.rest.node, m);
    }
  }

  /** What the clone keeps of the original, said without the clone's recursion. */
  lemma KeptIffBehind(h: Heap, rank: map<Node, nat>, n: Node, m: Node)
    requires Acyclic(h, rank) && n in h
    ensures m in Kept(h, rank, n) <==> KeptBehind(h, rank, n, m)
  {
    if m in Kept(h, rank, n) {
      KeptIsBehind(h, rank, n, m);
    }
    if r, a :| LeadsTo(h, rank, r, a, m) && r.node == n {
      BehindIsKept(h, rank, r, a, m);
    }
  }

  lemma CloneableFrame(h: Heap, h': Heap, d: set<Node>)
    requires d <= h.Keys && forall m | m in h :: m in h' && h'[m] == h[m]
    ensures Cloneable(h', d) <==> Cloneable(h, d)
  {
    if Cloneable(h', d) {
      assert forall m, k | m in h && m in d && k in h[m] :: h'[m][k] == h[m][k];
    }
  }

  lemma KeptStep(h: Heap, rank: map<Node, nat>, h': Heap, rank': map<Node, nat>, n: Node)
    requires Acyclic(h, rank) && Acyclic(h', rank') && n in h && n in h' && h'[n] == h[n]
    requires !Cloneable(h, Reach(h, rank, n)) && !Cloneable(h', Reach(h', rank', n))
    requires forall k | k in h[n] :: Lent(h', rank', h'[n][k]) == Lent(h, rank, h[n][k])
    ensures Kept(h', rank', n) == Kept(h, rank, n)
  {
    forall m ensures m in Kept(h', rank', n) <==> m in Kept(h, rank, n) {
      KeptIsLent(h, rank, n, m);
      KeptIsLent(h', rank', n, m);
    }
  }

  lemma {:induction false} KeptFrame(h: Heap, rank: map<Node, nat>, h': Heap, rank': map<Node, nat>, n: Node)
    requires Acyclic(h, rank) && Acyclic(h', rank') && n in h
    requires forall m | m in h :: m in h' && h'[m] == h[m]
    ensures Kept(h', rank', n) == Kept(h, rank, n)
    decreases rank[n]
  {
    ReachFrame(h, rank, h', rank', n);
    CloneableFrame(h, h', Reach(h, rank, n));
    if !Cloneable(h, Reach(h, rank, n)) {
      forall k | k in h[n] ensures Lent(h', rank', h'[n][k]) == Lent(h, rank, h[n][k]) {
        if h[n][k].Ref? {
          KeptFrame(h, rank, h', rank', h[n][k].node);
          ReachFrame(h, rank, h', rank', h[n][k].node);
        }
      }
      KeptStep(h, rank, h', rank', n);
    }
  }

  function Rename(slots: map<string, Value>, iso: map<Node, Node>): map<string, Value>
    requires forall k | k in slots && slots[k].Ref? :: slots[k].node in iso
  {
    map k | k in slots :: if slots[k].Ref? then Ref(iso[slots[k].node]) else slots[k]
  }

  /** The nodes in iso.Values copy those in iso.Keys, which are closed under references. */
  ghost predicate IsCopy(h: Heap, iso: map<Node, Node>, g: Heap) {
    && ClosedIn(h, iso.Keys)
    && (forall m, m' | m in iso && m' in iso && iso[m] == iso[m'] :: m == m')
    && (forall m | m in iso :: iso[m] !in h && iso[m].isArray == m.isArray)
    && g.Keys == h.Keys + iso.Values
    && (forall m | m in h :: g[m] == h[m])
    && (forall m | m in iso :: iso[m] in g && g[iso[m]] == Rename(h[m], iso))
  }

  ghost function CopyRank(rank: map<Node, nat>, iso: map<Node, Node>): map<Node, nat>
    requires iso.Keys <= rank.Keys
    requires forall m, m' | m in iso && m' in iso && iso[m] == iso[m'] :: m == m'
  {
    map y | y in rank.Keys + iso.Values ::
      if exists m :: m in iso && iso[m] == y then rank[var m :| m in iso && iso[m] == y; m] else rank[y]
  }

  lemma CopyIsAcyclic(h: Heap, rank: map<Node, nat>, iso: map<Node, Node>, g: Heap)
    requires Acyclic(h, rank) && rank.Keys == h.Keys && IsCopy(h, iso, g)
    ensures var rank' := CopyRank(rank, iso);
            && Acyclic(g, rank') && rank'.Keys == g.Keys
            && (forall m | m in h :: rank'[m] == rank[m])
            && (forall m | m in iso :: rank'[iso[m]] == rank[m])
  {
    var rank' := CopyRank(rank, iso);
    forall m | m in iso ensures rank'[iso[m]] == rank[m] {
      assert iso[m] in iso.Values;
    }
    forall n, k | n in g && k in g[n] && g[n][k].Ref?
      ensures g[n][k].node in g && rank'[g[n][k].node] < rank'[n]
    {
      if n !in h {
        var m :| m in iso && iso[m] == n;
        assert h[m][k].Ref? && g[n][k].node == iso[h[m][k].node];
      }
    }
    forall n, k | n in g && n.isArray && k in g[n] ensures IsIndex(k) {
      if n !in h {
        var m :| m in iso && iso[m] == n;
        assert k in h[m];
      }
    }
  }

  lemma {:induction false} CopyUnfolds(h: Heap, rank: map<Node, nat>, iso: map<Node, Node>, g: Heap,
                                       rank': map<Node, nat>, n: Node)
    requires Acyclic(h, rank) && Acyclic(g, rank') && IsCopy(h, iso, g) && n in iso
    ensures Unfold(g, rank', Ref(iso[n])) == Unfold(h, rank, Ref(n))
    decreases rank[n]
  {
    var copy, orig := Unfold(g, rank', Ref(iso[n])), Unfold(h, rank, Ref(n));
    forall k | k in h[n] ensures copy.slots[k] == orig.slots[k] {
      UnfoldSlot(h, rank, n, k);
      UnfoldSlot(g, rank', iso[n], k);
      if h[n][k].Ref? {
        CopyUnfolds(h, rank, iso, g, rank', h[n][k].node);
      }
    }
  }

  lemma {:induction false} CopyReaches(h: Heap, rank: map<Node, nat>, iso: map<Node, Node>, g: Heap,
                                       rank': map<Node, nat>, n: Node)
    requires Acyclic(h, rank) && Acyclic(g, rank') && IsCopy(h, iso, g) && n in iso
    ensures Reach(g, rank', iso[n]) !! h.Keys
  {
    forall y, k | y in iso.Values && k in g[y] && g[y][k].Ref?
      ensures g[y][k].node in iso.Values
    {
      var m :| m in iso && iso[m] == y;
      assert g[y][k].node == iso[h[m][k].node];
    }
    ReachIsLeastClosed(g, rank', iso[n], iso.Values);
  }

  // ---------- structuredClone ----------

  /** All nodes one can get to from the root, and whether none of them holds a function. */
  method Collect(root: Node, ghost s: set<Node>, ghost rank: map<Node, nat>) returns (seen: set<Node>, ok: bool)
    requires Acyclic(Snapshot(s), rank) && root in s
    ensures seen == Reach(Snapshot(s), rank, root)
    ensures ok <==> Cloneable(Snapshot(s), seen)
  {
    ghost var h := Snapshot(s);
    ghost var all := Reach(h, rank, root);
    ReachIsLeastClosed(h, rank, root, {});
    var todo := {root};
    seen, ok := {}, true;
    while todo != {}
      invariant seen + todo <= all && seen !! todo && root in seen + todo
      invariant forall m, k | m in seen && k in h[m] && h[m][k].Ref? :: h[m][k].node in seen + todo
      invariant ok <==> Cloneable(h, seen)
      decreases all - seen
    {
      var m :| m in todo;
      assert m.slots == h[m];
      var next := set k | k in m.slots && m.slots[k].Ref? :: m.slots[k].node;
      if exists k :: k in m.slots && m.slots[k].Callable? {
        ok := false;
      }
      seen := seen + {m};
      todo := todo + next - seen;
    }
    ReachIsLeastClosed(h, rank, root, seen);
  }

  method Allocate(seen: set<Node>) returns (iso: map<Node, Node>)
    ensures iso.Keys == seen && fresh(iso.Values)
    ensures forall m | m in iso :: iso[m].isArray == m.isArray
    ensures forall m, m' | m in iso && m' in iso && iso[m] == iso[m'] :: m == m'
  {
    iso := map[];
    var rest := seen;
    while rest != {}
      invariant rest <= seen && iso.Keys == seen - rest
      invariant forall m | m in iso :: fresh(iso[m]) && iso[m].isArray == m.isArray
      invariant forall m, m' | m in iso && m' in iso && iso[m] == iso[m'] :: m == m'
      decreases rest
    {
      var m :| m in rest;
      var copy := new Node(m.isArray, map[]);
      iso, rest := iso[m := copy], rest - {m};
    }
  }

  method Fill(iso: map<Node, Node>)
    requires iso.Keys !! iso.Values
    requires forall m, m' | m in iso && m' in iso && iso[m] == iso[m'] :: m == m'
    requires forall m, k | m in iso && k in m.slots && m.slots[k].Ref? :: m.slots[k].node in iso
    modifies iso.Values
    ensures forall m | m in iso :: iso[m].slots == Rename(m.slots, iso)
  {
    var rest := iso.Keys;
    while rest != {}
      invariant rest <= iso.Keys
      invariant forall m | m in iso :: m.slots == old(m.slots)
      invariant forall m | m in iso && m !in rest :: iso[m].slots == Rename(m.slots, iso)
      decreases rest
    {
      var m :| m in rest;
      assert iso[m] in iso.Values;
      iso[m].slots := Rename(m.slots, iso);
      rest := rest - {m};
    }
  }

  method CopyAll(seen: set<Node>, ghost s: set<Node>) returns (iso: map<Node, Node>)
    requires seen <= s && ClosedIn(Snapshot(s), seen)
    ensures iso.Keys == seen && fresh(iso.Values)
    ensures IsCopy(Snapshot(s), iso, Snapshot(s + iso.Values))
  {
    iso := Allocate(seen);
    assert forall m | m in iso :: iso[m] in iso.Values;
    assert forall m | m in seen :: m.slots == Snapshot(s)[m];
    Fill(iso);
    ghost var g := Snapshot(s + iso.Values);
    assert forall m | m in s :: m in g && g[m] == m.slots;
    assert forall m | m in iso :: iso[m] in g && g[iso[m]] == iso[m].slots;
  }

  method StructuredClone(root: Node, ghost s: set<Node>, ghost rank: map<Node, nat>)
    returns (ok: bool, iso: map<Node, Node>)
    requires Acyclic(Snapshot(s), rank) && root in s
    ensures ok <==> Cloneable(Snapshot(s), Reach(Snapshot(s), rank, root))
    ensures ok <==> forall m, k | m in s && m in Reach(Snapshot(s), rank, root) && k in m.slots :: !m.slots[k].Callable?
    ensures ok ==> iso.Keys == Reach(Snapshot(s), rank, root) && fresh(iso.Values)
    ensures ok ==> IsCopy(Snapshot(s), iso, Snapshot(s + iso.Values))
  {
    var seen;
    seen, ok := Collect(root, s, rank);
    iso := map[];
    if ok {
      ReachIsLeastClosed(Snapshot(s), rank, root, {});
      iso := CopyAll(seen, s);
    }
  }

  // ---------- cloneObject ----------

  ghost predicate Extends(h: Heap, rank: map<Node, nat>, g: Heap, rank': map<Node, nat>) {
    && Acyclic(h, rank) && Acyclic(g, rank') && rank.Keys == h.Keys && rank'.Keys == g.Keys
    && forall m | m in h :: m in g && g[m] == h[m] && rank'[m] == rank[m]
  }

  /** copy, new in g, has the slots of n as far as a reader of g can tell, and shares Kept with h. */
  ghost predicate CloneOf(h: Heap, rank: map<Node, nat>, n: Node, g: Heap, rank': map<Node, nat>, copy: Node)
    requires Extends(h, rank, g, rank') && n in h
  {
    && copy in g && copy !in h && rank'[copy] == rank[n]
    && Unfold(g, rank', Ref(copy)).slots == Unfold(h, rank, Ref(n)).slots
    && (copy.isArray <==> n.isArray && Cloneable(h, Reach(h, rank, n)))
    && Reach(g, rank', copy) * h.Keys == Kept(h, rank, n)
  }

  /** One slot of the fallback's new object: objects are cloned, arrays and the rest are kept. */
  ghost predicate SlotCloneOf(h: Heap, rank: map<Node, nat>, v: Value, g: Heap, rank': map<Node, nat>, v': Value)
    requires Extends(h, rank, g, rank') && (v.Ref? ==> v.node in h)
  {
    if v.Ref? && !v.node.isArray then v'.Ref? && CloneOf(h, rank, v.node, g, rank', v'.node) else v' == v
  }

  lemma CloneOfFrame(h: Heap, rank: map<Node, nat>, n: Node, g: Heap, rank': map<Node, nat>, copy: Node,
                     f: Heap, rank'': map<Node, nat>)
    requires Extends(h, rank, g, rank') && Extends(g, rank', f, rank'') && n in h
    requires CloneOf(h, rank, n, g, rank', copy)
    ensures Extends(h, rank, f, rank'') && CloneOf(h, rank, n, f, rank'', copy)
  {
    UnfoldFrame(g, rank', f, rank'', Ref(copy));
    ReachFrame(g, rank', f, rank'', copy);
  }

  /** A clone taken in a grown heap is a clone of the same node in the heap before. */
  lemma CloneOfEarlier(h: Heap, rank: map<Node, nat>, n: Node, g: Heap, rank': map<Node, nat>,
                       f: Heap, rank'': map<Node, nat>, copy: Node)
    requires Extends(h, rank, g, rank') && Extends(g, rank', f, rank'') && n in h
    requires CloneOf(g, rank', n, f, rank'', copy)
    ensures Extends(h, rank, f, rank'') && CloneOf(h, rank, n, f, rank'', copy)
  {
    UnfoldFrame(h, rank, g, rank', Ref(n));
    ReachFrame(h, rank, g, rank', n);
    KeptFrame(h, rank, g, rank', n);
    assert Cloneable(g, Reach(h, rank, n)) <==> Cloneable(h, Reach(h, rank, n));
    assert Reach(f, rank'', copy) * h.Keys == Reach(f, rank'', copy) * g.Keys * h.Keys;
  }

  lemma StructuredCloneOf(h: Heap, rank: map<Node, nat>, n: Node, iso: map<Node, Node>, g: Heap)
    requires Acyclic(h, rank) && rank.Keys == h.Keys && n in h && IsCopy(h, iso, g)
    requires Cloneable(h, Reach(h, rank, n)) && n in iso
    ensures Extends(h, rank, g, CopyRank(rank, iso)) && CloneOf(h, rank, n, g, CopyRank(rank, iso), iso[n])
  {
    CopyIsAcyclic(h, rank, iso, g);
    CopyUnfolds(h, rank, iso, g, CopyRank(rank, iso), n);
    CopyReaches(h, rank, iso, g, CopyRank(rank, iso), n);
  }

  ghost predicate SlotsCloned(h: Heap, rank: map<Node, nat>, n: Node, g: Heap, rank': map<Node, nat>,
                              slots: map<string, Value>)
    requires Extends(h, rank, g, rank') && n in h
  {
    slots.Keys <= h[n].Keys && forall k | k in slots :: SlotCloneOf(h, rank, h[n][k], g, rank', slots[k])
  }

  lemma SlotsFrame(h: Heap, rank: map<Node, nat>, n: Node, g: Heap, rank': map<Node, nat>, slots: map<string, Value>,
                   f: Heap, rank'': map<Node, nat>)
    requires Extends(h, rank, g, rank') && Extends(g, rank', f, rank'') && n in h
    requires SlotsCloned(h, rank, n, g, rank', slots)
    ensures Extends(h, rank, f, rank'') && SlotsCloned(h, rank, n, f, rank'', slots)
  {
    forall k | k in slots ensures SlotCloneOf(h, rank, h[n][k], f, rank'', slots[k]) {
      if h[n][k].Ref? && !h[n][k].node.isArray {
        CloneOfFrame(h, rank, h[n][k].node, g, rank', slots[k].node, f, rank'');
      }
    }
  }

  lemma SlotsAdd(h: Heap, rank: map<Node, nat>, n: Node, g: Heap, rank': map<Node, nat>, slots: map<string, Value>,
                 key: string, value: Value)
    requires Extends(h, rank, g, rank') && n in h && SlotsCloned(h, rank, n, g, rank', slots)
    requires key in h[n] && SlotCloneOf(h, rank, h[n][key], g, rank', value)
    ensures SlotsCloned(h, rank, n, g, rank', slots[key := value])
  {}

  /** The object the fallback filled, added to the heap. */
  ghost predicate Fallback(h: Heap, rank: map<Node, nat>, n: Node, g: Heap, rank': map<Node, nat>, copy: Node,
                           slots: map<string, Value>) {
    && Extends(h, rank, g, rank') && n in h && copy !in g && !copy.isArray
    && SlotsCloned(h, rank, n, g, rank', slots) && slots.Keys == h[n].Keys
  }

  /** A new object that refers to lower nodes only keeps the heap acyclic. */
  lemma ExtendsByOne(g: Heap, rank: map<Node, nat>, copy: Node, slots: map<string, Value>, top: nat)
    requires Acyclic(g, rank) && rank.Keys == g.Keys && copy !in g && !copy.isArray
    requires forall k | k in slots && slots[k].Ref? :: slots[k].node in g && rank[slots[k].node] < top
    ensures Extends(g, rank, g[copy := slots], rank[copy := top])
  {}

  lemma ExtendsTransitive(h: Heap, rank: map<Node, nat>, g: Heap, rank': map<Node, nat>, f: Heap,
                          rank'': map<Node, nat>)
    requires Extends(h, rank, g, rank') && Extends(g, rank', f, rank'')
    ensures Extends(h, rank, f, rank'')
  {}

  lemma FallbackExtends(h: Heap, rank: map<Node, nat>, n: Node, g: Heap, rank': map<Node, nat>, copy: Node,
                        slots: map<string, Value>)
    requires Fallback(h, rank, n, g, rank', copy, slots)
    ensures Extends(g, rank', g[copy := slots], rank'[copy := rank[n]])
    ensures Extends(h, rank, g[copy := slots], rank'[copy := rank[n]])
  {
    forall k | k in slots && slots[k].Ref?
      ensures slots[k].node in g && rank'[slots[k].node] < rank[n]
    {
      assert SlotCloneOf(h, rank, h[n][k], g, rank', slots[k]);
    }
    ExtendsByOne(g, rank', copy, slots, rank[n]);
    ExtendsTransitive(h, rank, g, rank', g[copy := slots], rank'[copy := rank[n]]);
  }

  lemma FallbackUnfolds(h: Heap, rank: map<Node, nat>, n: Node, g: Heap, rank': map<Node, nat>, copy: Node,
                        slots: map<string, Value>)
    requires Fallback(h, rank, n, g, rank', copy, slots)
    requires Extends(g, rank', g[copy := slots], rank'[copy := rank[n]])
    ensures Unfold(g[copy := slots], rank'[copy := rank[n]], Ref(copy)).slots == Unfold(h, rank, Ref(n)).slots
  {
    var f, r := g[copy := slots], rank'[copy := rank[n]];
    var left, right := Unfold(f, r, Ref(copy)).slots, Unfold(h, rank, Ref(n)).slots;
    forall k | k in slots ensures left[k] == right[k] {
      UnfoldSlot(f, r, copy, k);
      UnfoldSlot(h, rank, n, k);
      UnfoldFrame(g, rank', f, r, slots[k]);
      assert SlotCloneOf(h, rank, h[n][k], g, rank', slots[k]);
      if !(h[n][k].Ref? && !h[n][k].node.isArray) {
        UnfoldFrame(h, rank, g, rank', slots[k]);
      }
    }
  }

  lemma FallbackKeeps(h: Heap, rank: map<Node, nat>, n: Node, g: Heap, rank': map<Node, nat>, copy: Node,
                      slots: map<string, Value>)
    requires Fallback(h, rank, n, g, rank', copy, slots) && !Cloneable(h, Reach(h, rank, n))
    requires Extends(g, rank', g[copy := slots], rank'[copy := rank[n]])
    ensures Reach(g[copy := slots], rank'[copy := rank[n]], copy) * h.Keys == Kept(h, rank, n)
  {
    var f, r := g[copy := slots], rank'[copy := rank[n]];
    forall k | k in slots && slots[k].Ref?
      ensures Reach(f, r, slots[k].node) * h.Keys == Lent(h, rank, h[n][k])
    {
      FallbackSlotKeeps(h, rank, n, g, rank', copy, slots, k);
    }
    forall k | k in slots && !slots[k].Ref? ensures Lent(h, rank, h[n][k]) == {} {
      assert SlotCloneOf(h, rank, h[n][k], g, rank', slots[k]);
    }
    forall m | m in h ensures m in Reach(f, r, copy) <==> m in Kept(h, rank, n) {
      KeptIsLent(h, rank, n, m);
      if k :| k in h[n] && m in Lent(h, rank, h[n][k]) {
        assert slots[k].node in Kids(f, copy);
      }
    }
  }

  lemma FallbackSlotKeeps(h: Heap, rank: map<Node, nat>, n: Node, g: Heap, rank': map<Node, nat>, copy: Node,
                          slots: map<string, Value>, k: string)
    requires Fallback(h, rank, n, g, rank', copy, slots) && k in slots && slots[k].Ref?
    requires Extends(g, rank', g[copy := slots], rank'[copy := rank[n]])
    ensures slots[k].node in g
    ensures Reach(g[copy := slots], rank'[copy := rank[n]], slots[k].node) * h.Keys == Lent(h, rank, h[n][k])
  {
    assert SlotCloneOf(h, rank, h[n][k], g, rank', slots[k]);
    ReachFrame(g, rank', g[copy := slots], rank'[copy := rank[n]], slots[k].node);
    if h[n][k].node.isArray {
      ReachFrame(h, rank, g, rank', h[n][k].node);
    }
  }

  lemma FallbackCloneOf(h: Heap, rank: map<Node, nat>, n: Node, g: Heap, rank': map<Node, nat>, copy: Node,
                        slots: map<string, Value>)
    requires Fallback(h, rank, n, g, rank', copy, slots) && !Cloneable(h, Reach(h, rank, n))
    ensures var f, r := g[copy := slots], rank'[copy := rank[n]];
            Extends(h, rank, f, r) && CloneOf(h, rank, n, f, r, copy)
  {
    FallbackExtends(h, rank, n, g, rank', copy, slots);
    FallbackUnfolds(h, rank, n, g, rank', copy, slots);
    FallbackKeeps(h, rank, n, g, rank', copy, slots);
  }

  /** cloneObject. The ghost heaps h and g are the original one and the one the clone lives in. */
  method CloneObject(n: Node, ghost s: set<Node>, ghost h: Heap, ghost rank: map<Node, nat>)
    returns (copy: Node, ghost made: set<Node>, ghost g: Heap, ghost rank': map<Node, nat>)
    requires Acyclic(h, rank) && rank.Keys == s && n in s && Snapshot(s) == h
    ensures fresh(made) && Snapshot(s + made) == g
    ensures Extends(h, rank, g, rank') && CloneOf(h, rank, n, g, rank', copy)
    decreases rank[n], 5
  {
    var ok, iso := StructuredClone(n, s, rank);
    if ok {
      copy, made, rank' := iso[n], iso.Values, CopyRank(rank, iso);
      g := Snapshot(s + made);
      StructuredCloneOf(h, rank, n, iso, g);
    } else {
      copy, made, g, rank' := CloneByHand(n, s, h, rank);
    }
  }

  lemma AddedToSnapshot(s: set<Node>, made: set<Node>, n: Node)
    ensures Snapshot(s + (made + {n})) == Snapshot(s + made)[n := n.slots]
  {}

  /** The branch taken when the structured clone throws. */
  method CloneByHand(n: Node, ghost s: set<Node>, ghost h: Heap, ghost rank: map<Node, nat>)
    returns (newObj: Node, ghost made: set<Node>, ghost g: Heap, ghost rank': map<Node, nat>)
    requires Acyclic(h, rank) && rank.Keys == s && n in s && Snapshot(s) == h
    requires !Cloneable(h, Reach(h, rank, n))
    ensures fresh(made) && Snapshot(s + made) == g
    ensures Extends(h, rank, g, rank') && CloneOf(h, rank, n, g, rank', newObj)
    decreases rank[n], 4
  {
    newObj := new Node(false, map[]);
    made, g, rank' := CloneInto(newObj, n, s, h, rank);
    made := made + {newObj};
  }

  method CloneInto(newObj: Node, n: Node, ghost s: set<Node>, ghost h: Heap, ghost rank: map<Node, nat>)
    returns (ghost made: set<Node>, ghost g: Heap, ghost rank': map<Node, nat>)
    requires Acyclic(h, rank) && rank.Keys == s && n in s && Snapshot(s) == h
    requires !Cloneable(h, Reach(h, rank, n))
    requires newObj !in s && newObj.slots == map[] && !newObj.isArray
    modifies newObj
    ensures fresh(made) && Snapshot(s + (made + {newObj})) == g
    ensures Extends(h, rank, g, rank') && CloneOf(h, rank, n, g, rank', newObj)
    decreases rank[n], 3
  {
    made, g, rank' := FillByHand(newObj, n, s, h, rank);
    AddedToSnapshot(s, made, newObj);
    FallbackCloneOf(h, rank, n, g, rank', newObj, newObj.slots);
    g, rank' := g[newObj := newObj.slots], rank'[newObj := rank[n]];
  }

  method FillByHand(newObj: Node, n: Node, ghost s: set<Node>, ghost h: Heap, ghost rank: map<Node, nat>)
    returns (ghost made: set<Node>, ghost g: Heap, ghost rank': map<Node, nat>)
    requires Acyclic(h, rank) && rank.Keys == s && n in s && Snapshot(s) == h
    requires newObj !in s && newObj.slots == map[] && !newObj.isArray
    modifies newObj
    ensures fresh(made) && newObj !in made && Snapshot(s + made) == g
    ensures Fallback(h, rank, n, g, rank', newObj, newObj.slots)
    decreases rank[n], 2
  {
    made, g, rank' := {}, h, rank;
    assert s + made == s;
    var keys := n.slots.Keys;
    while keys != {}
      invariant keys <= h[n].Keys && newObj.slots.Keys == h[n].Keys - keys
      invariant fresh(made) && newObj !in made && Snapshot(s + made) == g
      invariant Extends(h, rank, g, rank') && SlotsCloned(h, rank, n, g, rank', newObj.slots)
      decreases keys
    {
      var key :| key in keys;
      keys := keys - {key};
      ghost var more;
      more, g, rank' := FillSlot(newObj, n, key, h, rank, s + made, g, rank');
      assert s + made + more == s + (made + more);
      made := made + more;
    }
  }

  /** A write to an object outside t leaves t as it is. */
  method SetSlot(o: Node, key: string, value: Value, ghost t: set<Node>)
    requires o !in t
    modifies o
    ensures o.slots == old(o.slots)[key := value] && Snapshot(t) == old(Snapshot(t))
  {
    o.slots := o.slots[key := value];
  }

  method FillSlot(newObj: Node, n: Node, key: string, ghost h: Heap, ghost rank: map<Node, nat>,
                  ghost s: set<Node>, ghost f: Heap, ghost r: map<Node, nat>)
    returns (ghost made: set<Node>, ghost g: Heap, ghost r': map<Node, nat>)
    requires n in h && key in h[n] && Snapshot(s) == f && newObj !in s
    requires Extends(h, rank, f, r) && SlotsCloned(h, rank, n, f, r, newObj.slots)
    modifies newObj
    ensures fresh(made) && newObj !in made && Snapshot(s + made) == g
    ensures newObj.slots.Keys == old(newObj.slots.Keys) + {key}
    ensures Extends(h, rank, g, r') && SlotsCloned(h, rank, n, g, r', newObj.slots)
    decreases rank[n], 1
  {
    assert n.slots == f[n];
    ghost var filled := newObj.slots;
    var value;
    value, made, g, r' := CloneSlot(n, key, filled, h, rank, s, f, r);
    SlotsAdd(h, rank, n, g, r', filled, key, value);
    SetSlot(newObj, key, value, s + made);
  }

  /** One slot: an object is cloned, anything else, arrays included, is taken as it is. */
  method CloneSlot(n: Node, key: string, ghost slots: map<string, Value>, ghost h: Heap, ghost rank: map<Node, nat>,
                   ghost s: set<Node>, ghost f: Heap, ghost r: map<Node, nat>)
    returns (value: Value, ghost made: set<Node>, ghost g: Heap, ghost r': map<Node, nat>)
    requires n in h && key in n.slots && Snapshot(s) == f
    requires Extends(h, rank, f, r) && SlotsCloned(h, rank, n, f, r, slots)
    ensures fresh(made) && Snapshot(s + made) == g
    ensures Extends(h, rank, g, r') && SlotsCloned(h, rank, n, g, r', slots)
    ensures key in h[n] && SlotCloneOf(h, rank, h[n][key], g, r', value)
    decreases rank[n], 0
  {
    assert n.slots == f[n];
    value, made, g, r' := n.slots[key], {}, f, r;
    assert s + made == s;
    if value.Ref? && !value.node.isArray {
      var copy;
      copy, made, g, r' := CloneObject(value.node, s, f, r);
      CloneOfEarlier(h, rank, value.node, f, r, g, r', copy);
      SlotsFrame(h, rank, n, f, r, slots, g, r');
      value := Ref(copy);
    }
  }
}
