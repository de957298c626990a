/** parseArrayToString of src/modules/common/utils/helpers/DataParser.helper.ts: a depth-first
    printer of nested arrays that may share or contain themselves. */
module ArrayPrinter {

  /** A Scalar carries the text toString gives for any element that is neither an array nor undefined. */
  datatype Element = Undefined | Scalar(text: string) | Nested(node: ArrayNode)

  class ArrayNode {
    var items: seq<Element>

    constructor (items: seq<Element>)
      ensures this.items == items
    {
      this.items := items;
    }
  }

  type Graph = map<ArrayNode, seq<Element>>

  ghost predicate Closed(g: Graph, d: set<ArrayNode>) {
    d <= g.Keys && forall a, i | a in d && 0 <= i < |g[a]| && g[a][i].Nested? :: g[a][i].node in d
  }

  ghost predicate ItemsIn(items: seq<Element>, d: set<ArrayNode>) {
    forall i | 0 <= i < |items| && items[i].Nested? :: items[i].node in d
  }

  ghost function Snapshot(s: set<ArrayNode>): Graph
    reads s
  {
    map a | a in s :: a.items
  }

  function ScalarText(e: Element, returnUndefined: bool): string
    requires !e.Nested?
  {
    match e
    case Undefined => if returnUndefined then "undefined" else ""
    case Scalar(text) => text
  }

  function Join(texts: seq<string>): string {
    if |texts| == 0 then "" else if |texts| == 1 then texts[0] else texts[0] + "," + Join(texts[1..])
  }

  /** Where item i starts in a text that has one comma between neighbours. */
  function Offset(texts: seq<string>, i: nat): nat
    requires i <= |texts|
  {
    if i == 0 then 0 else Offset(texts, i - 1) + |texts[i - 1]| + 1
  }

  /** The text consists of the items in order, a single comma before each but the first, and nothing else. */
  ghost predicate CommaSeparated(text: string, texts: seq<string>) {
    if texts == [] then text == ""
    else
      && |text| + 1 == Offset(texts, |texts|)
      && forall i | 0 <= i < |texts| :: StandsAt(text, texts, i)
  }

  ghost predicate StandsAt(text: string, texts: seq<string>, i: nat)
    requires i < |texts|
  {
    var from := Offset(texts, i);
    && from + |texts[i]| <= |text| && text[from..from + |texts[i]|] == texts[i]
    && (i > 0 ==> from > 0 && text[from - 1] == ',')
  }

  lemma {:induction false} OffsetOfTail(texts: seq<string>, i: nat)
    requires 0 < i <= |texts|
    ensures Offset(texts, i) == |texts[0]| + 1 + Offset(texts[1..], i - 1)
  {
    if i > 1 {
      OffsetOfTail(texts, i - 1);
    }
  }

  lemma {:induction false} JoinIsCommaSeparated(texts: seq<string>)
    ensures CommaSeparated(Join(texts), texts)
  {
    if |texts| == 1 {
      assert Offset(texts, 1) == Offset(texts, 0) + |texts[0]| + 1;
    } else if |texts| > 1 {
      var rest := Join(texts[1..]);
      JoinIsCommaSeparated(texts[1..]);
      OffsetOfTail(texts, |texts|);
      assert Join(texts) == texts[0] + "," + rest;
      forall i | 0 <= i < |texts| ensures StandsAt(texts[0] + "," + rest, texts, i) {
        if i > 0 {
          assert StandsAt(rest, texts[1..], i - 1);
          StandsBehind(rest, texts, i);
        }
      }
    }
  }

  lemma StandsBehind(rest: string, texts: seq<string>, i: nat)
    requires 0 < i < |texts| && StandsAt(rest, texts[1..], i - 1)
    ensures StandsAt(texts[0] + "," + rest, texts, i)
  {
    OffsetOfTail(texts, i);
    ShiftedAt(texts[0] + ",", rest, Offset(texts[1..], i - 1), |texts[i]|);
    if i > 1 {
      assert (texts[0] + "," + rest)[Offset(texts, i) - 1] == rest[Offset(texts[1..], i - 1) - 1];
    } else {
      assert (texts[0] + "," + rest)[|texts[0]|] == ',';
    }
  }

  lemma ShiftedAt(front: string, rest: string, from: nat, length: nat)
    requires from + length <= |rest|
    ensures (front + rest)[|front| + from..|front| + from + length] == rest[from..from + length]
  {}

  /** Only one text is comma-separated into given items. */
  lemma CommaSeparatedIsUnique(text: string, other: string, texts: seq<string>)
    requires CommaSeparated(text, texts) && CommaSeparated(other, texts)
    ensures text == other
  {
    if texts != [] {
      SameText(text, other, texts, |texts|);
    }
  }

  lemma {:induction false} SameText(text: string, other: string, texts: seq<string>, i: nat)
    requires texts != [] && CommaSeparated(text, texts) && CommaSeparated(other, texts) && i <= |texts|
    ensures |text| == |other| && Offset(texts, i) <= |text| + 1
    ensures i > 0 ==> text[..Offset(texts, i) - 1] == other[..Offset(texts, i) - 1]
    ensures i == |texts| ==> text == other
  {
    if i > 0 {
      SameText(text, other, texts, i - 1);
      assert StandsAt(text, texts, i - 1) && StandsAt(other, texts, i - 1);
      var from, to := Offset(texts, i - 1), Offset(texts, i) - 1;
      assert text[..to] == text[..from] + texts[i - 1] && other[..to] == other[..from] + texts[i - 1];
      if i > 1 {
        assert text[..from] == text[..from - 1] + "," && other[..from] == other[..from - 1] + ",";
      }
    }
  }

  // ---------- what is printed, said of the text ----------

  /** The text of one array and the arrays seen after it: the marker for an array seen before, and
      else the texts of its items, separated by commas, each printed with what its predecessors saw. */
  ghost predicate PrintsArray(g: Graph, a: ArrayNode, seen: set<ArrayNode>, u: bool, text: string,
                              after: set<ArrayNode>)
    requires Closed(g, g.Keys) && a in g && seen <= g.Keys
    decreases g.Keys - seen, 0
  {
    if a in seen then text == "Circular Reference" && after == seen
    else
      exists texts: seq<string>, seens: seq<set<ArrayNode>> ::
        CommaSeparated(text, texts) && PrintsItems(g, a, seen, u, texts, seens, after)
  }

  ghost predicate PrintsItems(g: Graph, a: ArrayNode, seen: set<ArrayNode>, u: bool, texts: seq<string>,
                              older seens: seq<set<ArrayNode>>, after: set<ArrayNode>)
    requires Closed(g, g.Keys) && a in g && seen <= g.Keys && a !in seen
    decreases g.Keys - seen, 0, 0
  {
    && |texts| == |g[a]| && |seens| == |g[a]| + 1
    && seens[0] == seen + {a} && seens[|g[a]|] == after
    && (forall i | 0 <= i <= |g[a]| :: seen + {a} <= seens[i] <= g.Keys)
    && forall i | 0 <= i < |g[a]| :: PrintsItem(g, g[a][i], seens[i], u, texts[i], seens[i + 1])
  }

  ghost predicate PrintsItem(g: Graph, e: Element, seen: set<ArrayNode>, u: bool, text: string, after: set<ArrayNode>)
    requires Closed(g, g.Keys) && (e.Nested? ==> e.node in g) && seen <= g.Keys
    decreases g.Keys - seen, 1
  {
    match e
    case Undefined => text == (if u then "undefined" else "") && after == seen
    case Scalar(s) => text == s && after == seen
    case Nested(n) =>
      |text| >= 2 && text[0] == '[' && text[|text| - 1] == ']' && PrintsArray(g, n, seen, u, text[1..|text| - 1], after)
  }

  // ---------- the visit as a value ----------

  /** One visit: the texts of the items, the arrays seen after it, the arrays it expanded in
      order, and how many times it printed the marker. */
  datatype Visit = Visit(texts: seq<string>, seen: set<ArrayNode>, order: seq<ArrayNode>, markers: nat)

  ghost function VisitArray(g: Graph, a: ArrayNode, seen: set<ArrayNode>, u: bool): (r: (string, Visit))
    requires Closed(g, g.Keys) && a in g && seen <= g.Keys
    ensures seen <= r.1.seen <= g.Keys
    decreases g.Keys - seen, 0
  {
    if a in seen then
      ("Circular Reference", Visit([], seen, [], 1))
    else
      var v := VisitItems(g, g[a], 0, seen + {a}, u);
      (Join(v.texts), v.(order := [a] + v.order))
  }

  ghost function VisitElement(g: Graph, e: Element, seen: set<ArrayNode>, u: bool): (r: (string, Visit))
    requires Closed(g, g.Keys) && (e.Nested? ==> e.node in g) && seen <= g.Keys
    ensures seen <= r.1.seen <= g.Keys
    decreases g.Keys - seen, 1
  {
    if e.Nested? then
      var (text, v) := VisitArray(g, e.node, seen, u);
      ("[" + text + "]", v)
    else
      (ScalarText(e, u), Visit([], seen, [], 0))
  }

  /** The items from index i on. */
  ghost function VisitItems(g: Graph, items: seq<Element>, i: nat, seen: set<ArrayNode>, u: bool): (r: Visit)
    requires Closed(g, g.Keys) && ItemsIn(items, g.Keys) && seen <= g.Keys && i <= |items|
    ensures seen <= r.seen <= g.Keys && |r.texts| == |items| - i
    decreases g.Keys - seen, 2, |items| - i
  {
    if i == |items| then Visit([], seen, [], 0)
    else
      var (text, v) := VisitElement(g, items[i], seen, u);
      var w := VisitItems(g, items, i + 1, v.seen, u);
      Visit([text] + w.texts, w.seen, v.order + w.order, v.markers + w.markers)
  }

  /** texts are those of the items before i, when seen is what their visit left. */
  ghost predicate Visited(g: Graph, items: seq<Element>, i: nat, whole: Visit, texts: seq<string>,
                          seen: set<ArrayNode>, u: bool)
    requires Closed(g, g.Keys) && ItemsIn(items, g.Keys) && seen <= g.Keys && i <= |items|
  {
    var rest := VisitItems(g, items, i, seen, u);
    whole.texts == texts + rest.texts && whole.seen == rest.seen
  }

  lemma VisitedStep(g: Graph, items: seq<Element>, i: nat, whole: Visit, texts: seq<string>, seen: set<ArrayNode>,
                    u: bool)
    requires Closed(g, g.Keys) && ItemsIn(items, g.Keys) && seen <= g.Keys && i < |items|
    requires Visited(g, items, i, whole, texts, seen, u)
    ensures var (text, v) := VisitElement(g, items[i], seen, u);
            Visited(g, items, i + 1, whole, texts + [text], v.seen, u)
  {}

  lemma {:induction false} VisitPrints(g: Graph, a: ArrayNode, seen: set<ArrayNode>, u: bool)
    requires Closed(g, g.Keys) && a in g && seen <= g.Keys
    ensures var (text, v) := VisitArray(g, a, seen, u); PrintsArray(g, a, seen, u, text, v.seen)
    decreases g.Keys - seen, 1
  {
    if a !in seen {
      var v := VisitItems(g, g[a], 0, seen + {a}, u);
      var seens := SeenBefore(g, g[a], 0, seen + {a}, u);
      JoinIsCommaSeparated(v.texts);
      SeenLast(g, g[a], 0, seen + {a}, u);
      forall j | 0 <= j < |g[a]|
        ensures seen + {a} <= seens[j] <= g.Keys && PrintsItem(g, g[a][j], seens[j], u, v.texts[j], seens[j + 1])
      {
        VisitItemPrints(g, a, seen, 0, seen + {a}, u, j);
      }
      assert PrintsItems(g, a, seen, u, v.texts, seens, v.seen);
    }
  }

  /** What was seen before each of the items from i on, and after the last. */
  ghost function SeenBefore(g: Graph, items: seq<Element>, i: nat, seen: set<ArrayNode>,
                            u: bool): (r: seq<set<ArrayNode>>)
    requires Closed(g, g.Keys) && ItemsIn(items, g.Keys) && seen <= g.Keys && i <= |items|
    ensures |r| == |items| - i + 1 && r[0] == seen
    decreases |items| - i
  {
    if i == |items| then [seen]
    else [seen] + SeenBefore(g, items, i + 1, VisitElement(g, items[i], seen, u).1.seen, u)
  }

  /** The j-th item from i on, printed with what was seen before it. */
  lemma {:induction false} VisitItemPrints(g: Graph, a: ArrayNode, first: set<ArrayNode>, i: nat,
                                           seen: set<ArrayNode>, u: bool, j: nat)
    requires Closed(g, g.Keys) && a in g && first <= g.Keys && a !in first && i + j < |g[a]|
    requires first + {a} <= seen <= g.Keys
    ensures var v, seens := VisitItems(g, g[a], i, seen, u), SeenBefore(g, g[a], i, seen, u);
            && seen <= seens[j] <= g.Keys && PrintsItem(g, g[a][i + j], seens[j], u, v.texts[j], seens[j + 1])
    decreases g.Keys - first, 0, |g[a]| - i
  {
    var (text, w) := VisitElement(g, g[a][i], seen, u);
    if j > 0 {
      VisitItemPrints(g, a, first, i + 1, w.seen, u, j - 1);
    } else if g[a][i].Nested? {
      VisitPrints(g, g[a][i].node, seen, u);
      assert text[1..|text| - 1] == VisitArray(g, g[a][i].node, seen, u).0;
    }
  }

  lemma {:induction false} SeenLast(g: Graph, items: seq<Element>, i: nat, seen: set<ArrayNode>, u: bool)
    requires Closed(g, g.Keys) && ItemsIn(items, g.Keys) && seen <= g.Keys && i <= |items|
    ensures SeenBefore(g, items, i, seen, u)[|items| - i] == VisitItems(g, items, i, seen, u).seen
    decreases |items| - i
  {
    if i < |items| {
      var next := VisitElement(g, items[i], seen, u).1.seen;
      SeenLast(g, items, i + 1, next, u);
      assert VisitItems(g, items, i, seen, u).seen == VisitItems(g, items, i + 1, next, u).seen;
      var rest := SeenBefore(g, items, i + 1, next, u);
      assert SeenBefore(g, items, i, seen, u) == [seen] + rest;
      assert ([seen] + rest)[|items| - i] == rest[|items| - i - 1];
    }
  }

  lemma {:induction false} PrintsVisit(g: Graph, a: ArrayNode, seen: set<ArrayNode>, u: bool, text: string,
                                       after: set<ArrayNode>)
    requires Closed(g, g.Keys) && a in g && seen <= g.Keys && PrintsArray(g, a, seen, u, text, after)
    ensures var (visited, v) := VisitArray(g, a, seen, u); text == visited && after == v.seen
    decreases g.Keys - seen, 1
  {
    if a !in seen {
      var texts, seens :| CommaSeparated(text, texts) && PrintsItems(g, a, seen, u, texts, seens, after);
      PrintsItemsVisit(g, a, seen, u, texts, seens, after, 0);
      assert texts == VisitItems(g, g[a], 0, seen + {a}, u).texts;
      JoinIsCommaSeparated(texts);
      CommaSeparatedIsUnique(text, Join(texts), texts);
    }
  }

  lemma {:induction false} PrintsItemsVisit(g: Graph, a: ArrayNode, seen: set<ArrayNode>, u: bool, texts: seq<string>,
                                            seens: seq<set<ArrayNode>>, after: set<ArrayNode>, i: nat)
    requires Closed(g, g.Keys) && a in g && seen <= g.Keys && a !in seen && i <= |g[a]|
    requires PrintsItems(g, a, seen, u, texts, seens, after)
    ensures var v := VisitItems(g, g[a], i, seens[i], u); texts[i..] == v.texts && after == v.seen
    decreases g.Keys - seen, 0, |g[a]| - i
  {
    if i < |g[a]| {
      var (text, w) := VisitElement(g, g[a][i], seens[i], u);
      assert PrintsItem(g, g[a][i], seens[i], u, texts[i], seens[i + 1]);
      if g[a][i].Nested? {
        PrintsVisit(g, g[a][i].node, seens[i], u, texts[i][1..|texts[i]| - 1], seens[i + 1]);
        assert texts[i] == "[" + texts[i][1..|texts[i]| - 1] + "]";
      }
      assert texts[i] == text && seens[i + 1] == w.seen;
      PrintsItemsVisit(g, a, seen, u, texts, seens, after, i + 1);
      assert texts[i..] == [texts[i]] + texts[i + 1..];
    }
  }

  /** The visit computes the one text, and the one set of seen arrays, that printing allows. */
  lemma PrintsIff(g: Graph, a: ArrayNode, seen: set<ArrayNode>, u: bool, text: string, after: set<ArrayNode>)
    requires Closed(g, g.Keys) && a in g && seen <= g.Keys
    ensures var (visited, v) := VisitArray(g, a, seen, u);
            PrintsArray(g, a, seen, u, text, after) <==> text == visited && after == v.seen
  {
    VisitPrints(g, a, seen, u);
    if PrintsArray(g, a, seen, u, text, after) {
      PrintsVisit(g, a, seen, u, text, after);
    }
  }

  /** The closure of parseArrayToString together with the set it grows. */
  class Visitor {
    var seen: set<ArrayNode>

    constructor ()
      ensures seen == {}
    {
      seen := {};
    }

    method VisitNode(list: ArrayNode, returnUndefined: bool, ghost s: set<ArrayNode>, ghost g: Graph)
      returns (text: string)
      requires Snapshot(s) == g && Closed(g, s) && list in s && seen <= s
      modifies this
      ensures (text, seen) == var r := VisitArray(g, list, old(seen), returnUndefined); (r.0, r.1.seen)
      decreases s - seen, 0
    {
      if list in seen {
        return "Circular Reference";
      }
      seen := seen + {list};
      assert g[list] == list.items;
      var texts := VisitEach(list.items, returnUndefined, s, g);
      return Join(texts);
    }

    method VisitEach(items: seq<Element>, returnUndefined: bool, ghost s: set<ArrayNode>, ghost g: Graph)
      returns (texts: seq<string>)
      requires Snapshot(s) == g && Closed(g, s) && ItemsIn(items, s) && seen <= s
      modifies this
      ensures var v := VisitItems(g, items, 0, old(seen), returnUndefined); texts == v.texts && seen == v.seen
      decreases s - seen, 2
    {
      ghost var whole := VisitItems(g, items, 0, seen, returnUndefined);
      texts := [];
      for i := 0 to |items|
        invariant seen <= s && old(seen) <= seen
        invariant Visited(g, items, i, whole, texts, seen, returnUndefined)
      {
        VisitedStep(g, items, i, whole, texts, seen, returnUndefined);
        var text := VisitItem(items[i], returnUndefined, s, g);
        texts := texts + [text];
      }
    }

    /** The callback of map over the items of one array. */
    method VisitItem(e: Element, returnUndefined: bool, ghost s: set<ArrayNode>, ghost g: Graph) returns (text: string)
      requires Snapshot(s) == g && Closed(g, s) && (e.Nested? ==> e.node in s) && seen <= s
      modifies this
      ensures old(seen) <= seen <= s
      ensures (text, seen) == var r := VisitElement(g, e, old(seen), returnUndefined); (r.0, r.1.seen)
      decreases s - seen, 1
    {
      if e.Nested? {
        text := VisitNode(e.node, returnUndefined, s, g);
        text := "[" + text + "]";
      } else {
        text := ScalarText(e, returnUndefined);
      }
    }
  }

  method ParseArrayToString(data: ArrayNode, returnUndefined: bool, ghost s: set<ArrayNode>) returns (text: string)
    requires Closed(Snapshot(s), s) && data in s
    ensures text == VisitArray(Snapshot(s), data, {}, returnUndefined).0
    ensures exists after :: after <= s && PrintsArray(Snapshot(s), data, {}, returnUndefined, text, after)
    ensures forall other, after | after <= s ::
              PrintsArray(Snapshot(s), data, {}, returnUndefined, other, after) ==> other == text
  {
    ghost var g := Snapshot(s);
    VisitPrints(g, data, {}, returnUndefined);
    forall other, after | after <= s && PrintsArray(g, data, {}, returnUndefined, other, after)
      ensures other == VisitArray(g, data, {}, returnUndefined).0
    {
      PrintsVisit(g, data, {}, returnUndefined, other, after);
    }
    var visitor := new Visitor();
    text := visitor.VisitNode(data, returnUndefined, s, Snapshot(s));
  }

  lemma FewItems(g: Graph, items: seq<Element>, seen: set<ArrayNode>, u: bool)
    requires Closed(g, g.Keys) && ItemsIn(items, g.Keys) && seen <= g.Keys
    ensures |items| == 1 ==> VisitItems(g, items, 0, seen, u).texts == [VisitElement(g, items[0], seen, u).0]
    ensures |items| == 2 ==>
              var first := VisitElement(g, items[0], seen, u);
              VisitItems(g, items, 0, seen, u).texts == [first.0, VisitElement(g, items[1], first.1.seen, u).0]
  {
    if |items| == 1 {
      assert VisitItems(g, items, 1, VisitElement(g, items[0], seen, u).1.seen, u).texts == [];
    } else if |items| == 2 {
      var first := VisitElement(g, items[0], seen, u).1.seen;
      assert VisitItems(g, items, 2, VisitElement(g, items[1], first, u).1.seen, u).texts == [];
      assert VisitItems(g, items, 1, first, u).texts == [VisitElement(g, items[1], first, u).0];
    }
  }

  lemma JoinTwo(s: string, t: string)
    ensures Join([s, t]) == s + "," + t
  {
    assert [s, t][1..] == [t];
  }

  // Some texts in full.

  lemma TwoScalarsPrint(g: Graph, a: ArrayNode, u: bool, s: string, t: string)
    requires Closed(g, g.Keys) && a in g && g[a] == [Scalar(s), Scalar(t)]
    ensures VisitArray(g, a, {}, u).0 == s + "," + t
  {
    FewItems(g, g[a], {} + {a}, u);
    JoinTwo(s, t);
  }

  lemma LoneUndefinedPrints(g: Graph, a: ArrayNode, u: bool)
    requires Closed(g, g.Keys) && a in g && g[a] == [Undefined]
    ensures VisitArray(g, a, {}, u).0 == if u then "undefined" else ""
  {
    FewItems(g, g[a], {} + {a}, u);
  }

  lemma EmptyArrayInsidePrints(g: Graph, a: ArrayNode, b: ArrayNode, u: bool, s: string)
    requires Closed(g, g.Keys) && a in g && b in g && a != b && g[a] == [Scalar(s), Nested(b)] && g[b] == []
    ensures VisitArray(g, a, {}, u).0 == s + ",[]"
  {
    FewItems(g, g[a], {} + {a}, u);
    assert VisitItems(g, g[b], 0, {} + {a} + {b}, u).texts == [];
    JoinTwo(s, "[]");
    assert s + "," + "[]" == s + ",[]" && "[" + "" + "]" == "[]";
  }

  lemma ArrayInItselfPrints(g: Graph, a: ArrayNode, u: bool, t: string)
    requires Closed(g, g.Keys) && a in g && g[a] == [Nested(a), Scalar(t)]
    ensures VisitArray(g, a, {}, u).0 == "[Circular Reference]," + t
  {
    FewItems(g, g[a], {} + {a}, u);
    assert "[" + "Circular Reference" + "]" == "[Circular Reference]";
    JoinTwo("[Circular Reference]", t);
    assert "[Circular Reference]" + "," == "[Circular Reference],";
  }

  // ---------- every array in reach is expanded exactly once ----------

  ghost predicate NoDuplicates<T>(s: seq<T>) {
    s == [] || (s[0] !in s[1..] && NoDuplicates(s[1..]))
  }

  ghost function Elements<T>(s: seq<T>): set<T> {
    set x | x in s
  }

  lemma {:induction false} NoDuplicatesConcat<T>(s: seq<T>, t: seq<T>)
    ensures NoDuplicates(s + t) <==> NoDuplicates(s) && NoDuplicates(t) && Elements(s) !! Elements(t)
    ensures Elements(s + t) == Elements(s) + Elements(t)
  {
    if s == [] {
      assert s + t == t;
    } else {
      assert (s + t)[0] == s[0] && (s + t)[1..] == s[1..] + t;
      assert Elements(s) == {s[0]} + Elements(s[1..]);
      NoDuplicatesConcat(s[1..], t);
    }
  }

  /** A visit expands new arrays only, each once, and leaves no expanded array with an unseen item. */
  ghost predicate Expands(g: Graph, seen: set<ArrayNode>, order: seq<ArrayNode>, seen': set<ArrayNode>) {
    && NoDuplicates(order) && seen' == seen + Elements(order) && seen !! Elements(order)
    && forall x | x in Elements(order) :: x in g && ItemsIn(g[x], seen')
  }

  lemma ExpandsThen(g: Graph, seen: set<ArrayNode>, order: seq<ArrayNode>, seen': set<ArrayNode>,
                    order': seq<ArrayNode>, seen'': set<ArrayNode>)
    requires Expands(g, seen, order, seen') && Expands(g, seen', order', seen'')
    ensures Expands(g, seen, order + order', seen'')
  {
    NoDuplicatesConcat(order, order');
  }

  lemma {:induction false} VisitArrayOrder(g: Graph, a: ArrayNode, seen: set<ArrayNode>, u: bool)
    requires Closed(g, g.Keys) && a in g && seen <= g.Keys
    ensures var r := VisitArray(g, a, seen, u).1; Expands(g, seen, r.order, r.seen) && a in r.seen
    decreases g.Keys - seen, 0
  {
    if a !in seen {
      VisitItemsOrder(g, g[a], 0, seen + {a}, u);
      NoDuplicatesConcat([a], VisitItems(g, g[a], 0, seen + {a}, u).order);
    }
  }

  lemma {:induction false} VisitItemsOrder(g: Graph, items: seq<Element>, i: nat, seen: set<ArrayNode>, u: bool)
    requires Closed(g, g.Keys) && ItemsIn(items, g.Keys) && seen <= g.Keys && i <= |items|
    ensures var r := VisitItems(g, items, i, seen, u);
            && Expands(g, seen, r.order, r.seen)
            && (forall j | i <= j < |items| && items[j].Nested? :: items[j].node in r.seen)
    decreases g.Keys - seen, 1, |items| - i
  {
    if i < |items| {
      if items[i].Nested? {
        VisitArrayOrder(g, items[i].node, seen, u);
      }
      var v := VisitElement(g, items[i], seen, u).1;
      VisitItemsOrder(g, items, i + 1, v.seen, u);
      var w := VisitItems(g, items, i + 1, v.seen, u);
      ExpandsThen(g, seen, v.order, v.seen, w.order, w.seen);
    }
  }

  lemma {:induction false} VisitStaysInside(g: Graph, a: ArrayNode, seen: set<ArrayNode>, d: set<ArrayNode>, u: bool)
    requires Closed(g, g.Keys) && a in d && seen <= d && Closed(g, d)
    ensures VisitArray(g, a, seen, u).1.seen <= d
    decreases g.Keys - seen, 0
  {
    if a !in seen {
      VisitItemsStayInside(g, g[a], 0, seen + {a}, d, u);
    }
  }

  lemma {:induction false} VisitItemsStayInside(g: Graph, items: seq<Element>, i: nat, seen: set<ArrayNode>,
                                                d: set<ArrayNode>, u: bool)
    requires Closed(g, g.Keys) && ItemsIn(items, d) && seen <= d && Closed(g, d) && i <= |items|
    ensures VisitItems(g, items, i, seen, u).seen <= d
    decreases g.Keys - seen, 1, |items| - i
  {
    if i < |items| {
      if items[i].Nested? {
        VisitStaysInside(g, items[i].node, seen, d, u);
      }
      VisitItemsStayInside(g, items, i + 1, VisitElement(g, items[i], seen, u).1.seen, d, u);
    }
  }

  /** From an empty set, on any finite graph, cycles included: the arrays expanded are the least
      set holding the root and closed under nesting, each expanded exactly once. */
  lemma ExpandsReachableOnce(g: Graph, a: ArrayNode, u: bool, d: set<ArrayNode>)
    requires Closed(g, g.Keys) && a in g
    ensures var r := VisitArray(g, a, {}, u).1; var expanded := Elements(r.order);
            && NoDuplicates(r.order) && a in expanded && Closed(g, expanded)
            && (a in d && Closed(g, d) ==> expanded <= d)
  {
    VisitArrayOrder(g, a, {}, u);
    if a in d && Closed(g, d) {
      VisitStaysInside(g, a, {}, d, u);
    }
  }

  ghost function NestedCount(items: seq<Element>, i: nat): nat
    requires i <= |items|
    decreases |items| - i
  {
    if i == |items| then 0 else (if items[i].Nested? then 1 else 0) + NestedCount(items, i + 1)
  }

  ghost function References(g: Graph, order: seq<ArrayNode>): nat
    requires forall x | x in order :: x in g
  {
    if order == [] then 0 else NestedCount(g[order[0]], 0) + References(g, order[1..])
  }

  lemma {:induction false} ReferencesConcat(g: Graph, s: seq<ArrayNode>, t: seq<ArrayNode>)
    requires forall x | x in s + t :: x in g
    ensures (forall x | x in s :: x in g) && (forall x | x in t :: x in g)
    ensures References(g, s + t) == References(g, s) + References(g, t)
  {
    assert (forall x | x in s :: x in s + t) && (forall x | x in t :: x in s + t);
    if s == [] {
      assert s + t == t;
    } else {
      assert (s + t)[0] == s[0] && (s + t)[1..] == s[1..] + t;
      ReferencesConcat(g, s[1..], t);
    }
  }

  lemma {:induction false} VisitArrayCount(g: Graph, a: ArrayNode, seen: set<ArrayNode>, u: bool)
    requires Closed(g, g.Keys) && a in g && seen <= g.Keys
    ensures var r := VisitArray(g, a, seen, u).1;
            && (forall x | x in r.order :: x in g)
            && |r.order| + r.markers == 1 + References(g, r.order)
    decreases g.Keys - seen, 0
  {
    if a !in seen {
      VisitItemsCount(g, g[a], 0, seen + {a}, u);
      ReferencesConcat(g, [a], VisitItems(g, g[a], 0, seen + {a}, u).order);
    }
  }

  lemma {:induction false} VisitItemsCount(g: Graph, items: seq<Element>, i: nat, seen: set<ArrayNode>, u: bool)
    requires Closed(g, g.Keys) && ItemsIn(items, g.Keys) && seen <= g.Keys && i <= |items|
    ensures var r := VisitItems(g, items, i, seen, u);
            && (forall x | x in r.order :: x in g)
            && |r.order| + r.markers == NestedCount(items, i) + References(g, r.order)
    decreases g.Keys - seen, 1, |items| - i
  {
    if i < |items| {
      if items[i].Nested? {
        VisitArrayCount(g, items[i].node, seen, u);
      }
      var v := VisitElement(g, items[i], seen, u).1;
      VisitItemsCount(g, items, i + 1, v.seen, u);
      ReferencesConcat(g, v.order, VisitItems(g, items, i + 1, v.seen, u).order);
    }
  }

  /** Every reference held by an expanded array, and the one to the root, is either expanded or
      printed as the marker: the marker count is what sharing and cycles add to a tree. */
  lemma MarkersCountRepeats(g: Graph, a: ArrayNode, u: bool)
    requires Closed(g, g.Keys) && a in g
    ensures var r := VisitArray(g, a, {}, u).1;
            && (forall x | x in r.order :: x in g)
            && r.markers == 1 + References(g, r.order) - |r.order|
  {
    VisitArrayCount(g, a, {}, u);
  }

  // ---------- unshared nesting prints plainly, and nothing else does ----------

  ghost predicate Ranked(g: Graph, rank: map<ArrayNode, nat>) {
    && Closed(g, g.Keys) && g.Keys <= rank.Keys
    && forall a, i | a in g && 0 <= i < |g[a]| && g[a][i].Nested? :: rank[g[a][i].node] < rank[a]
  }

  ghost predicate Below(items: seq<Element>, rank: map<ArrayNode, nat>, n: nat) {
    forall i | 0 <= i < |items| && items[i].Nested? :: items[i].node in rank && rank[items[i].node] < n
  }

  /** The printer without a seen set. */
  ghost function Plain(g: Graph, rank: map<ArrayNode, nat>, a: ArrayNode, u: bool): string
    requires Ranked(g, rank) && a in g
    decreases rank[a], 1, 0
  {
    Join(PlainItems(g, rank, g[a], 0, rank[a], u))
  }

  ghost function PlainItems(g: Graph, rank: map<ArrayNode, nat>, items: seq<Element>, i: nat, n: nat,
                            u: bool): seq<string>
    requires Ranked(g, rank) && ItemsIn(items, g.Keys) && Below(items, rank, n) && i <= |items|
    decreases n, 0, |items| - i
  {
    if i == |items| then []
    else
      [if items[i].Nested? then "[" + Plain(g, rank, items[i].node, u) + "]" else ScalarText(items[i], u)]
      + PlainItems(g, rank, items, i + 1, n, u)
  }

  /** One item as the plain printer shows it. */
  ghost predicate PlainItem(g: Graph, rank: map<ArrayNode, nat>, e: Element, u: bool, text: string)
    requires Ranked(g, rank) && (e.Nested? ==> e.node in g)
  {
    match e
    case Undefined => text == if u then "undefined" else ""
    case Scalar(s) => text == s
    case Nested(n) => text == "[" + Plain(g, rank, n, u) + "]"
  }

  lemma {:induction false} PlainItemsMean(g: Graph, rank: map<ArrayNode, nat>, items: seq<Element>, i: nat, n: nat,
                                          u: bool)
    requires Ranked(g, rank) && ItemsIn(items, g.Keys) && Below(items, rank, n) && i <= |items|
    ensures var texts := PlainItems(g, rank, items, i, n, u);
            |texts| == |items| - i && forall j | 0 <= j < |texts| :: PlainItem(g, rank, items[i + j], u, texts[j])
    decreases |items| - i
  {
    if i < |items| {
      PlainItemsMean(g, rank, items, i + 1, n, u);
    }
  }

  /** The plain text of an array: its items with commas between them, nested arrays in brackets. */
  lemma PlainMeans(g: Graph, rank: map<ArrayNode, nat>, a: ArrayNode, u: bool)
    requires Ranked(g, rank) && a in g
    ensures exists texts :: CommaSeparated(Plain(g, rank, a, u), texts) && |texts| == |g[a]|
              && forall i | 0 <= i < |texts| :: PlainItem(g, rank, g[a][i], u, texts[i])
  {
    var texts := PlainItems(g, rank, g[a], 0, rank[a], u);
    PlainItemsMean(g, rank, g[a], 0, rank[a], u);
    JoinIsCommaSeparated(texts);
  }

  /** Every occurrence of an array in the fully expanded nesting, in printing order. */
  ghost function Occurrences(g: Graph, rank: map<ArrayNode, nat>, a: ArrayNode): seq<ArrayNode>
    requires Ranked(g, rank) && a in g
    decreases rank[a], 1, 0
  {
    [a] + ItemOccurrences(g, rank, g[a], 0, rank[a])
  }

  ghost function ItemOccurrences(g: Graph, rank: map<ArrayNode, nat>, items: seq<Element>, i: nat,
                                 n: nat): seq<ArrayNode>
    requires Ranked(g, rank) && ItemsIn(items, g.Keys) && Below(items, rank, n) && i <= |items|
    decreases n, 0, |items| - i
  {
    if i == |items| then []
    else
      (if items[i].Nested? then Occurrences(g, rank, items[i].node) else [])
      + ItemOccurrences(g, rank, items, i + 1, n)
  }

  ghost predicate Fresh(occurrences: seq<ArrayNode>, seen: set<ArrayNode>) {
    NoDuplicates(occurrences) && Elements(occurrences) !! seen
  }

  lemma {:induction false} VisitIsPlain(g: Graph, rank: map<ArrayNode, nat>, a: ArrayNode, seen: set<ArrayNode>,
                                        u: bool)
    requires Ranked(g, rank) && a in g && seen <= g.Keys
    ensures var (text, r) := VisitArray(g, a, seen, u); var occ := Occurrences(g, rank, a);
            && (r.markers == 0 <==> Fresh(occ, seen))
            && (r.markers == 0 ==> text == Plain(g, rank, a, u) && r.order == occ)
    decreases rank[a], 1, 0
  {
    var occ := ItemOccurrences(g, rank, g[a], 0, rank[a]);
    NoDuplicatesConcat([a], occ);
    if a !in seen {
      VisitItemsArePlain(g, rank, g[a], 0, rank[a], seen + {a}, u);
      assert Fresh([a] + occ, seen) <==> Fresh(occ, seen + {a});
    }
  }

  lemma {:induction false} VisitItemsArePlain(g: Graph, rank: map<ArrayNode, nat>, items: seq<Element>, i: nat,
                                              n: nat, seen: set<ArrayNode>, u: bool)
    requires Ranked(g, rank) && ItemsIn(items, g.Keys) && Below(items, rank, n) && seen <= g.Keys && i <= |items|
    ensures var r := VisitItems(g, items, i, seen, u); var occ := ItemOccurrences(g, rank, items, i, n);
            && (r.markers == 0 <==> Fresh(occ, seen))
            && (r.markers == 0 ==> r.texts == PlainItems(g, rank, items, i, n, u) && r.order == occ)
    decreases n, 0, |items| - i
  {
    if i < |items| {
      var v, rest := VisitElement(g, items[i], seen, u).1, ItemOccurrences(g, rank, items, i + 1, n);
      VisitItemsArePlain(g, rank, items, i + 1, n, v.seen, u);
      if items[i].Nested? {
        var first := Occurrences(g, rank, items[i].node);
        VisitIsPlain(g, rank, items[i].node, seen, u);
        VisitArrayOrder(g, items[i].node, seen, u);
        NoDuplicatesConcat(first, rest);
      } else {
        assert ItemOccurrences(g, rank, items, i, n) == rest;
      }
    }
  }

  /** On acyclic nesting the marker is printed exactly when some array occurs twice; without it the
      output is the plain bracket-and-comma one. */
  lemma UnsharedPrintsPlainly(g: Graph, rank: map<ArrayNode, nat>, a: ArrayNode, u: bool)
    requires Ranked(g, rank) && a in g
    ensures var (text, r) := VisitArray(g, a, {}, u);
            && (r.markers == 0 <==> NoDuplicates(Occurrences(g, rank, a)))
            && (NoDuplicates(Occurrences(g, rank, a)) ==> text == Plain(g, rank, a, u))
  {
    VisitIsPlain(g, rank, a, {}, u);
  }
}
