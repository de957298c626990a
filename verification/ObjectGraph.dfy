/** Mutable JavaScript objects and arrays as a graph of nodes, a snapshot of that graph as a
    value, and the two views every result about masking is stated in: the set of nodes
    reachable from one, and the finite tree a node unfolds to. */
module ObjectGraph {

  /** Any primitive is a Text; a Callable is a function or a symbol, which cannot be cloned. */
  datatype Value = Undefined | Null | Text(s: string) | Callable(name: string) | Ref(node: Node)

  /** A plain object, or an array whose slots are named by its indices. */
  class Node {
    const isArray: bool
    var slots: map<string, Value>

    constructor (isArray: bool, slots: map<string, Value>)
      ensures this.isArray == isArray && this.slots == slots
    {
      this.isArray := isArray;
      this.slots := slots;
    }
  }

  type Heap = map<Node, map<string, Value>>

  ghost function Snapshot(s: set<Node>): Heap
    reads s
  {
    map n | n in s :: n.slots
  }

  predicate IsIndex(name: string) {
    |name| > 0 && forall i | 0 <= i < |name| :: '0' <= name[i] <= '9'
  }

  ghost function Kids(h: Heap, n: Node): set<Node>
    requires n in h
  {
    set k | k in h[n] && h[n][k].Ref? :: h[n][k].node
  }

  /** No dangling reference, and arrays hold elements only. */
  ghost predicate WellFormed(h: Heap) {
    && (forall n, k | n in h && k in h[n] && h[n][k].Ref? :: h[n][k].node in h)
    && (forall n, k | n in h && n.isArray && k in h[n] :: IsIndex(k))
  }

  /** A rank that drops along every edge: the graph is acyclic. */
  ghost predicate Ranked(h: Heap, rank: map<Node, nat>) {
    && h.Keys <= rank.Keys
    && forall n, k | n in h && k in h[n] && h[n][k].Ref? ::
         h[n][k].node in rank && rank[h[n][k].node] < rank[n]
  }

  ghost predicate Acyclic(h: Heap, rank: map<Node, nat>) {
    WellFormed(h) && Ranked(h, rank)
  }

  ghost function Reach(h: Heap, rank: map<Node, nat>, n: Node): (r: set<Node>)
    requires Acyclic(h, rank) && n in h
    ensures n in r && r <= h.Keys
    decreases rank[n]
  {
    {n} + set c, m | c in Kids(h, n) && m in Reach(h, rank, c) :: m
  }

  lemma ReachThrough(h: Heap, rank: map<Node, nat>, n: Node, k: string, m: Node)
    requires Acyclic(h, rank) && n in h && k in h[n] && h[n][k].Ref?
    requires m in Reach(h, rank, h[n][k].node)
    ensures m in Reach(h, rank, n)
  {
    assert h[n][k].node in Kids(h, n);
  }

  ghost predicate ClosedIn(h: Heap, d: set<Node>) {
    d <= h.Keys && forall n, k | n in d && k in h[n] && h[n][k].Ref? :: h[n][k].node in d
  }

  /** Reach is the least set that holds the start and follows every reference: the definition
      by rank is the usual one, whatever the rank. */
  lemma {:induction false} ReachIsLeastClosed(h: Heap, rank: map<Node, nat>, n: Node, d: set<Node>)
    requires Acyclic(h, rank) && n in h
    ensures ClosedIn(h, Reach(h, rank, n))
    ensures n in d && ClosedIn(h, d) ==> Reach(h, rank, n) <= d
    decreases rank[n]
  {
    forall c | c in Kids(h, n) {
      ReachIsLeastClosed(h, rank, c, d);
    }
    forall m, k | m in Reach(h, rank, n) && k in h[m] && h[m][k].Ref?
      ensures h[m][k].node in Reach(h, rank, n)
    {
      if m == n {
        assert h[m][k].node in Kids(h, n);
      } else {
        var c :| c in Kids(h, n) && m in Reach(h, rank, c);
        assert h[m][k].node in Reach(h, rank, c);
      }
    }
  }

  /** Growing the heap by nodes the old ones do not mention changes nothing they reach. */
  lemma {:induction false} ReachFrame(h: Heap, rank: map<Node, nat>, h': Heap, rank': map<Node, nat>, n: Node)
    requires Acyclic(h, rank) && Acyclic(h', rank') && n in h
    requires forall m | m in h :: m in h' && h'[m] == h[m]
    ensures Reach(h', rank', n) == Reach(h, rank, n)
    decreases rank[n]
  {
    assert Kids(h', n) == Kids(h, n);
    forall c | c in Kids(h, n) {
      ReachFrame(h, rank, h', rank', c);
    }
  }

  /** What a reader who cannot tell shared nodes apart sees. */
  datatype Tree = Leaf(value: Value) | Branch(isArray: bool, slots: map<string, Tree>)

  ghost function Unfold(h: Heap, rank: map<Node, nat>, v: Value): Tree
    requires Acyclic(h, rank) && (v.Ref? ==> v.node in h)
    decreases if v.Ref? then rank[v.node] + 1 else 0
  {
    if v.Ref? then
      Branch(v.node.isArray, map k | k in h[v.node] :: Unfold(h, rank, h[v.node][k]))
    else
      Leaf(v)
  }

  lemma UnfoldSlot(h: Heap, rank: map<Node, nat>, n: Node, k: string)
    requires Acyclic(h, rank) && n in h && k in h[n]
    ensures var t := Unfold(h, rank, Ref(n));
            && t.slots.Keys == h[n].Keys && t.slots[k] == Unfold(h, rank, h[n][k])
            && (t.slots[k] == Leaf(Undefined) <==> h[n][k] == Undefined)
  {}

  lemma UnfoldKind(h: Heap, rank: map<Node, nat>, n: Node)
    requires Acyclic(h, rank) && n in h
    ensures var t := Unfold(h, rank, Ref(n)); t.Branch? && (t.isArray <==> n.isArray)
  {}

  lemma {:induction false} UnfoldFrame(h: Heap, rank: map<Node, nat>, h': Heap, rank': map<Node, nat>, v: Value)
    requires Acyclic(h, rank) && Acyclic(h', rank') && (v.Ref? ==> v.node in h)
    requires forall m | m in h :: m in h' && h'[m] == h[m]
    ensures Unfold(h', rank', v) == Unfold(h, rank, v)
    decreases if v.Ref? then rank[v.node] + 1 else 0
  {
    if v.Ref? {
      forall k | k in h[v.node] {
        UnfoldFrame(h, rank, h', rank', h[v.node][k]);
      }
    }
  }
}
