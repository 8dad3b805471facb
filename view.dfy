/**
 * The selector `getNodesAndEdgesByCollectionId`: the part of the graph to
 * draw for one collection. It takes the collection's neighbourhood, keeps
 * the sub-collections that are to be drawn, and then walks them in order:
 * a collapsed one hides its members and reroutes their edges to itself, an
 * expanded one shows its members and drops the edges that end on itself.
 *
 * The node map is enumerated in the order `order`; `sortBy('collectionChains')`
 * is a stable sort by `rank` of each collection's chains (the original
 * compares the chains as strings).
 */
module View {
  import opened Types
  import opened Lists
  import opened Merge
  import opened Store
  import opened Selectors

  /** A collapsed sub-collection as the view lists it, with the length of its member list. */
  datatype Collapsed = Collapsed(collection: Node, count: nat)

  /** What the selector returns. `collectionChain` holds no record for an ancestor id that is not loaded. */
  datatype Materialized = Materialized(
    nodes: seq<Node>,
    collections: seq<Node>,
    visibleCollections: seq<Collapsed>,
    edges: seq<Edge>,
    collectionChain: seq<Option<Node>>)

  /** The answer for a collection that is not loaded. */
  const EmptyView: Materialized := Materialized([], [], [], [], [])

  // ---------------------------------------------------------------------------
  // sortBy('collectionChains')

  /** Every collection is ranked no higher than the ones after it. */
  predicate Sorted(cs: seq<Node>, rank: seq<Chain> -> int) {
    forall i, j :: 0 <= i < j < |cs| ==> rank(cs[i].collectionChains) <= rank(cs[j].collectionChains)
  }

  /** `x` placed after every element ranked no higher than it. */
  function Insert(x: Node, cs: seq<Node>, rank: seq<Chain> -> int): (r: seq<Node>)
    ensures multiset(r) == multiset(cs) + multiset{x}
  {
    if cs == [] then [x]
    else if rank(x.collectionChains) < rank(cs[0].collectionChains) then [x] + cs
    else
      assert cs == [cs[0]] + cs[1..];
      [cs[0]] + Insert(x, cs[1..], rank)
  }

  /** The elements of rank `v`, in their order in `cs`. */
  function OfRank(cs: seq<Node>, rank: seq<Chain> -> int, v: int): seq<Node> {
    if cs == [] then []
    else (if rank(cs[0].collectionChains) == v then [cs[0]] else []) + OfRank(cs[1..], rank, v)
  }

  /**
   * The stable sort: a permutation of the collections, ordered by rank, in
   * which collections of equal rank keep their relative order.
   */
  function SortByChains(cs: seq<Node>, rank: seq<Chain> -> int): (r: seq<Node>)
    ensures multiset(r) == multiset(cs)
    ensures Sorted(r, rank)
    ensures forall v :: OfRank(r, rank, v) == OfRank(cs, rank, v)
  {
    if cs == [] then []
    else
      var init := cs[..|cs| - 1];
      assert cs == init + [cs[|cs| - 1]];
      InsertSorted(cs[|cs| - 1], SortByChains(init, rank), rank);
      SortStep(init, cs[|cs| - 1], SortByChains(init, rank), rank);
      Insert(cs[|cs| - 1], SortByChains(init, rank), rank)
  }

  /** Inserting the next collection into the sorted prefix keeps every rank's order. */
  lemma SortStep(init: seq<Node>, x: Node, sorted: seq<Node>, rank: seq<Chain> -> int)
    requires Sorted(sorted, rank)
    requires forall v :: OfRank(sorted, rank, v) == OfRank(init, rank, v)
    ensures forall v :: OfRank(Insert(x, sorted, rank), rank, v) == OfRank(init + [x], rank, v)
  {
    forall v ensures OfRank(Insert(x, sorted, rank), rank, v) == OfRank(init + [x], rank, v) {
      InsertStable(x, sorted, rank, v);
      OfRankAppend(init, [x], rank, v);
      assert [x][1..] == [];
    }
  }

  lemma {:induction false} OfRankAppend(a: seq<Node>, b: seq<Node>, rank: seq<Chain> -> int, v: int)
    ensures OfRank(a + b, rank, v) == OfRank(a, rank, v) + OfRank(b, rank, v)
  {
    if a == [] {
      assert a + b == b;
    } else {
      assert (a + b)[1..] == a[1..] + b;
      OfRankAppend(a[1..], b, rank, v);
    }
  }

  /** No element of a sequence ranked at least `b` has a rank below `b`. */
  lemma {:induction false} OfRankBelow(cs: seq<Node>, rank: seq<Chain> -> int, b: int, v: int)
    requires Above(cs, rank, b) && v < b
    ensures OfRank(cs, rank, v) == []
  {
    if cs != [] {
      assert Above(cs[1..], rank, b) by {
        forall k | 0 <= k < |cs[1..]| ensures b <= rank(cs[1..][k].collectionChains) {
          assert cs[1..][k] == cs[k + 1];
        }
      }
      OfRankBelow(cs[1..], rank, b, v);
    }
  }

  /** `x` lands after every element of its own rank. */
  lemma {:induction false} InsertStable(x: Node, cs: seq<Node>, rank: seq<Chain> -> int, v: int)
    requires Sorted(cs, rank)
    ensures OfRank(Insert(x, cs, rank), rank, v) == OfRank(cs, rank, v) + (if rank(x.collectionChains) == v then [x] else [])
  {
    var mine := if rank(x.collectionChains) == v then [x] else [];
    if cs == [] {
      assert OfRank([x], rank, v) == mine + OfRank([x][1..], rank, v);
      assert [x][1..] == [];
    } else if rank(x.collectionChains) < rank(cs[0].collectionChains) {
      assert Insert(x, cs, rank) == [x] + cs;
      assert ([x] + cs)[1..] == cs;
      assert OfRank([x] + cs, rank, v) == mine + OfRank(cs, rank, v);
      if rank(x.collectionChains) == v {
        assert Above(cs, rank, rank(cs[0].collectionChains));
        OfRankBelow(cs, rank, rank(cs[0].collectionChains), v);
      }
    } else {
      var tail := cs[1..];
      var head := if rank(cs[0].collectionChains) == v then [cs[0]] else [];
      SortedTail(cs, rank);
      InsertStable(x, tail, rank, v);
      var t := Insert(x, tail, rank);
      assert Insert(x, cs, rank) == [cs[0]] + t;
      assert ([cs[0]] + t)[1..] == t;
      assert OfRank([cs[0]] + t, rank, v) == head + OfRank(t, rank, v);
      assert OfRank(cs, rank, v) == head + OfRank(tail, rank, v);
      assert head + (OfRank(tail, rank, v) + mine) == (head + OfRank(tail, rank, v)) + mine;
    }
  }

  lemma SortedTail(cs: seq<Node>, rank: seq<Chain> -> int)
    requires Sorted(cs, rank) && cs != []
    ensures Sorted(cs[1..], rank)
  {
    var tail := cs[1..];
    forall i, j | 0 <= i < j < |tail| ensures rank(tail[i].collectionChains) <= rank(tail[j].collectionChains) {
      assert tail[i] == cs[i + 1] && tail[j] == cs[j + 1];
    }
  }

  lemma {:induction false} InsertSorted(x: Node, cs: seq<Node>, rank: seq<Chain> -> int)
    requires Sorted(cs, rank)
    ensures Sorted(Insert(x, cs, rank), rank)
  {
    if cs != [] && rank(x.collectionChains) >= rank(cs[0].collectionChains) {
      var tail := cs[1..];
      SortedTail(cs, rank);
      assert Above(tail, rank, rank(cs[0].collectionChains)) by {
        forall k | 0 <= k < |tail| ensures rank(cs[0].collectionChains) <= rank(tail[k].collectionChains) {
          assert tail[k] == cs[k + 1];
        }
      }
      InsertSorted(x, tail, rank);
      InsertAbove(x, tail, rank, rank(cs[0].collectionChains));
      ConsSorted(cs[0], Insert(x, tail, rank), rank);
    }
  }

  /** Every element ranked at least `b`. */
  predicate Above(cs: seq<Node>, rank: seq<Chain> -> int, b: int) {
    forall k :: 0 <= k < |cs| ==> b <= rank(cs[k].collectionChains)
  }

  lemma InsertAbove(x: Node, cs: seq<Node>, rank: seq<Chain> -> int, b: int)
    requires Above(cs, rank, b) && b <= rank(x.collectionChains)
    ensures Above(Insert(x, cs, rank), rank, b)
  {
    var t := Insert(x, cs, rank);
    forall k | 0 <= k < |t| ensures b <= rank(t[k].collectionChains) {
      assert t[k] in multiset(t);
      if t[k] != x {
        assert t[k] in multiset(cs);
        var m :| 0 <= m < |cs| && cs[m] == t[k];
      }
    }
  }

  lemma ConsSorted(h: Node, t: seq<Node>, rank: seq<Chain> -> int)
    requires Sorted(t, rank) && Above(t, rank, rank(h.collectionChains))
    ensures Sorted([h] + t, rank)
  {
    var r := [h] + t;
    forall i, j | 0 <= i < j < |r| ensures rank(r[i].collectionChains) <= rank(r[j].collectionChains) {
      assert r[j] == t[j - 1];
      if i > 0 {
        assert r[i] == t[i - 1];
      }
    }
  }

  // ---------------------------------------------------------------------------
  // Which sub-collections are drawn

  /** `_.difference(collectionChain, list).length === 0`: the chain holds every id of `cc`. */
  predicate WithinCollection(chain: Chain, cc: seq<Id>) {
    |Difference(cc, chain)| == 0
  }

  /**
   * The records (or `undefined`) of the first ids of the chains that hold
   * every id of `cc`: the parent collections of `c` inside the collection.
   */
  function ParentsOf(chains: seq<Chain>, cc: seq<Id>, nodeMap: map<Id, Node>): (r: seq<Option<Node>>)
    requires cc != []
    ensures |r| <= |chains|
  {
    if chains == [] then []
    else
      var rest := ParentsOf(chains[1..], cc, nodeMap);
      if WithinCollection(chains[0], cc) then
        assert cc[0] in cc;
        [Get(nodeMap, chains[0][0])] + rest
      else rest
  }

  /** `_.every(parentCollections, c => !c || c.collapsed)`. */
  predicate NoneExpanded(parents: seq<Option<Node>>) {
    forall i :: 0 <= i < |parents| ==> parents[i].None? || IsCollapsed(parents[i].value)
  }

  /**
   * The filter over the sorted sub-collections: never an id of the chain
   * itself; always a direct child; otherwise only when some parent inside
   * the collection is loaded and expanded.
   */
  predicate KeepCollection(c: Node, cc: seq<Id>, nodeMap: map<Id, Node>)
    requires cc != []
  {
    if c.id in cc then false
    else if cc in c.collectionChains then true
    else !NoneExpanded(ParentsOf(c.collectionChains, cc, nodeMap))
  }

  function FilterCollections(cs: seq<Node>, cc: seq<Id>, nodeMap: map<Id, Node>): (r: seq<Node>)
    requires cc != []
    ensures forall c :: c in r <==> c in cs && KeepCollection(c, cc, nodeMap)
  {
    if cs == [] then []
    else
      assert forall c :: c in cs <==> c == cs[0] || c in cs[1..];
      (if KeepCollection(cs[0], cc, nodeMap) then [cs[0]] else []) + FilterCollections(cs[1..], cc, nodeMap)
  }

  // ---------------------------------------------------------------------------
  // Edges that go outside the collection

  /** `_.every(node.collectionChains, list => _.difference(collectionChain, list).length > 0)`. */
  predicate Outside(n: Node, cc: seq<Id>) {
    forall k :: 0 <= k < |n.collectionChains| ==> |Difference(cc, n.collectionChains[k])| > 0
  }

  /**
   * The edges whose ends both sit inside the collection. An end with no
   * record in the node map makes the original throw; the start is tested
   * first and an edge with its start outside is dropped without reading
   * its end.
   */
  function KeepInside(edges: seq<Edge>, nodeMap: map<Id, Node>, cc: seq<Id>): Result<seq<Edge>> {
    if edges == [] then Ok([])
    else
      var e := edges[0];
      if e.start !in nodeMap then Err(MissingRecord(e.start))
      else if Outside(nodeMap[e.start], cc) then KeepInside(edges[1..], nodeMap, cc)
      else if e.end !in nodeMap then Err(MissingRecord(e.end))
      else if Outside(nodeMap[e.end], cc) then KeepInside(edges[1..], nodeMap, cc)
      else
        var rest :- KeepInside(edges[1..], nodeMap, cc);
        Ok([e] + rest)
  }

  // ---------------------------------------------------------------------------
  // The pass over the drawn sub-collections

  /**
   * The variables the loop updates: the keys of `visibleNodeMap` and
   * `hiddenNodeMap`, the collapsed collections listed so far and
   * `transformedEdges`.
   */
  datatype Pass = Pass(visible: set<Id>, hidden: set<Id>, shown: seq<Collapsed>, edges: seq<Edge>)

  /** `getNodeIdsByCollectionId`: the member list, none for an unknown collection. */
  function MemberIds(byCollection: map<Id, seq<Id>>, c: Id): seq<Id> {
    Get(byCollection, c).GetOr([])
  }

  /**
   * One edge after collection `c` collapsed: kept as it is when both ends
   * are visible; otherwise each hidden end moves to `c`, and the edge is
   * dropped when its ends then coincide.
   */
  function Reroute(e: Edge, visible: set<Id>, hidden: set<Id>, c: Id): Option<Edge> {
    if e.start in visible && e.end in visible then Some(e)
    else
      var moved := e.(start := if e.start in hidden then c else e.start, end := if e.end in hidden then c else e.end);
      if moved.start == moved.end then None else Some(moved)
  }

  function RerouteAll(edges: seq<Edge>, visible: set<Id>, hidden: set<Id>, c: Id): (r: seq<Edge>)
    ensures |r| <= |edges|
  {
    if edges == [] then []
    else
      (match Reroute(edges[0], visible, hidden, c) case None => [] case Some(e) => [e]) + RerouteAll(edges[1..], visible, hidden, c)
  }

  /** The edges with neither end on `c`, in order. */
  function DropIncident(edges: seq<Edge>, c: Id): (r: seq<Edge>)
    ensures forall e :: e in r <==> e in edges && e.start != c && e.end != c
  {
    if edges == [] then []
    else
      assert forall e :: e in edges <==> e == edges[0] || e in edges[1..];
      (if edges[0].start != c && edges[0].end != c then [edges[0]] else []) + DropIncident(edges[1..], c)
  }

  /** A collapsed collection: its members leave the visible set and join the hidden one, then the edges are rerouted. */
  function Collapse(p: Pass, c: Node, ids: seq<Id>): Pass {
    var visible := p.visible - Elems(ids);
    var hidden := p.hidden + Elems(ids);
    Pass(visible, hidden, p.shown + [Collapsed(c, |ids|)], RerouteAll(p.edges, visible, hidden, c.id))
  }

  /** An expanded collection: its members become visible (hidden ones stay hidden) and its own edges go. */
  function Expand(p: Pass, c: Node, ids: seq<Id>): Pass {
    Pass(p.visible + Elems(ids), p.hidden, p.shown, DropIncident(p.edges, c.id))
  }

  function Step(p: Pass, c: Node, byCollection: map<Id, seq<Id>>): Pass {
    var ids := MemberIds(byCollection, c.id);
    if IsCollapsed(c) then Collapse(p, c, ids) else Expand(p, c, ids)
  }

  /** The pass over the collections, in order. */
  function Process(p: Pass, cs: seq<Node>, byCollection: map<Id, seq<Id>>): Pass {
    if cs == [] then p
    else Step(Process(p, cs[..|cs| - 1], byCollection), cs[|cs| - 1], byCollection)
  }

  /** The `nodeIds.forEach` of a collapsed collection: each member leaves the visible set and joins the hidden one. */
  method HideMembers(visible0: set<Id>, hidden0: set<Id>, ids: seq<Id>) returns (visible: set<Id>, hidden: set<Id>)
    ensures visible == visible0 - Elems(ids)
    ensures hidden == hidden0 + Elems(ids)
  {
    visible, hidden := visible0, hidden0;
    var j := 0;
    while j < |ids|
      invariant 0 <= j <= |ids|
      invariant visible == visible0 - Elems(ids[..j])
      invariant hidden == hidden0 + Elems(ids[..j])
    {
      var n := ids[j];
      assert ids[..j + 1] == ids[..j] + [n];
      if n in visible {
        visible := visible - {n};
      }
      hidden := hidden + {n};
      j := j + 1;
    }
    assert ids[..j] == ids;
  }

  /** The `forEach` over the members of an expanded collection: each becomes visible. */
  method ShowMembers(visible0: set<Id>, ids: seq<Id>) returns (visible: set<Id>)
    ensures visible == visible0 + Elems(ids)
  {
    visible := visible0;
    var j := 0;
    while j < |ids|
      invariant 0 <= j <= |ids|
      invariant visible == visible0 + Elems(ids[..j])
    {
      assert ids[..j + 1] == ids[..j] + [ids[j]];
      visible := visible + {ids[j]};
      j := j + 1;
    }
    assert ids[..j] == ids;
  }

  /** The `filteredCollections.forEach` loop as the original runs it. */
  method RunPasses(p0: Pass, cs: seq<Node>, byCollection: map<Id, seq<Id>>) returns (p: Pass)
    ensures p == Process(p0, cs, byCollection)
  {
    p := p0;
    var i := 0;
    while i < |cs|
      invariant 0 <= i <= |cs|
      invariant p == Process(p0, cs[..i], byCollection)
    {
      p := Pass1(p, cs[i], byCollection);
      assert cs[..i + 1][..i] == cs[..i];
      i := i + 1;
    }
    assert cs[..i] == cs;
  }

  /** The body of the `forEach` for one drawn collection. */
  method Pass1(p0: Pass, c: Node, byCollection: map<Id, seq<Id>>) returns (p: Pass)
    ensures p == Step(p0, c, byCollection)
  {
    var ids := MemberIds(byCollection, c.id);
    if IsCollapsed(c) {
      var visible, hidden := HideMembers(p0.visible, p0.hidden, ids);
      p := Pass(visible, hidden, p0.shown + [Collapsed(c, |ids|)], RerouteAll(p0.edges, visible, hidden, c.id));
    } else {
      var visible := ShowMembers(p0.visible, ids);
      p := Pass(visible, p0.hidden, p0.shown, DropIncident(p0.edges, c.id));
    }
  }

  // ---------------------------------------------------------------------------
  // The selector

  /** The records of the given type, in order. */
  function OfKind(records: seq<Node>, kind: string): (r: seq<Node>)
    ensures forall n :: n in r <==> n in records && n.kind == kind
  {
    if records == [] then []
    else
      assert forall n :: n in records <==> n == records[0] || n in records[1..];
      (if records[0].kind == kind then [records[0]] else []) + OfKind(records[1..], kind)
  }

  /** The ids of the plain nodes that have a chain equal to `cc`: the direct children. */
  function DirectChildren(nodes: seq<Node>, cc: seq<Id>): set<Id> {
    set i | 0 <= i < |nodes| && cc in nodes[i].collectionChains :: nodes[i].id
  }

  /** The records whose id is visible, in order. */
  function VisibleNodes(nodes: seq<Node>, visible: set<Id>): (r: seq<Node>)
    ensures forall n :: n in r <==> n in nodes && n.id in visible
  {
    if nodes == [] then []
    else
      assert forall n :: n in nodes <==> n == nodes[0] || n in nodes[1..];
      (if nodes[0].id in visible then [nodes[0]] else []) + VisibleNodes(nodes[1..], visible)
  }

  /** `_.keyBy(nodesAndCollections, n => n.id)` for records stored under their own ids. */
  function NodeMap(nodes: map<Id, Node>, ids: seq<Id>): map<Id, Node> {
    map k | k in nodes && k in ids :: nodes[k]
  }

  /** The collection's own id followed by its ancestors, each looked up among the collections. */
  function ChainRecords(collections: map<Id, Node>, cc: seq<Id>): (r: seq<Option<Node>>)
    ensures |r| == |cc| && forall i :: 0 <= i < |cc| ==> r[i] == Get(collections, cc[i])
  {
    seq(|cc|, i requires 0 <= i < |cc| => Get(collections, cc[i]))
  }

  /** The sorted, filtered sub-collections of a neighbourhood. */
  function Drawn(records: seq<Node>, cc: seq<Id>, nodeMap: map<Id, Node>, rank: seq<Chain> -> int): seq<Node>
    requires cc != []
  {
    FilterCollections(SortByChains(OfKind(records, CollectionType), rank), cc, nodeMap)
  }

  /**
   * `getNodesAndEdgesByCollectionId`. `getNode(state, n.id)` on a record
   * of the neighbourhood is that record, the store keeping every record
   * under its own id.
   */
  function ViewOf(s: State, id: Id, order: seq<Id>, rank: seq<Chain> -> int): (r: Result<Materialized>)
    requires Enumerates(order, s.nodes)
    requires WellKeyed(s.nodes, NodeKey)
    ensures id !in s.collections ==> r == Ok(EmptyView)
  {
    if id !in s.collections then Ok(EmptyView)
    else
      var cc := ChainOf(s.collections[id]);
      var nb :- Neighbouring(s, id, order);
      var records :- Lookup(s.nodes, nb.nodes);
      var nodes := OfKind(records, NodeType);
      var edges :- Lookup(s.edges, nb.edges);
      var nodeMap := NodeMap(s.nodes, nb.nodes);
      var inside :- KeepInside(edges, nodeMap, cc);
      var drawn := Drawn(records, cc, nodeMap, rank);
      var p := Process(Pass(DirectChildren(nodes, cc), {}, [], inside), drawn, s.byCollection);
      Ok(Materialized(VisibleNodes(nodes, p.visible), drawn, p.shown, p.edges, ChainRecords(s.collections, cc)))
  }

  /** The selector as the original runs it, with the loop over the drawn sub-collections. */
  method Materialize(s: State, id: Id, order: seq<Id>, rank: seq<Chain> -> int) returns (r: Result<Materialized>)
    requires Enumerates(order, s.nodes)
    requires WellKeyed(s.nodes, NodeKey)
    ensures r == ViewOf(s, id, order, rank)
  {
    if id !in s.collections {
      return Ok(EmptyView);
    }
    var cc := ChainOf(s.collections[id]);
    var nb := Neighbouring(s, id, order);
    if nb.Err? {
      return Err(nb.fault);
    }
    var records := Lookup(s.nodes, nb.value.nodes);
    if records.Err? {
      return Err(records.fault);
    }
    var nodes := OfKind(records.value, NodeType);
    var edges := Lookup(s.edges, nb.value.edges);
    if edges.Err? {
      return Err(edges.fault);
    }
    var nodeMap := NodeMap(s.nodes, nb.value.nodes);
    var inside := KeepInside(edges.value, nodeMap, cc);
    if inside.Err? {
      return Err(inside.fault);
    }
    var drawn := Drawn(records.value, cc, nodeMap, rank);
    var p := RunPasses(Pass(DirectChildren(nodes, cc), {}, [], inside.value), drawn, s.byCollection);
    r := Ok(Materialized(VisibleNodes(nodes, p.visible), drawn, p.shown, p.edges, ChainRecords(s.collections, cc)));
  }

  // ---------------------------------------------------------------------------
  // Properties: which sub-collections are drawn

  /** `_.difference(cc, chain)` is empty exactly when the chain holds every id of `cc`. */
  lemma WithinHolds(chain: Chain, cc: seq<Id>)
    ensures WithinCollection(chain, cc) <==> Holds(chain, cc)
  {
    DifferenceNonEmpty(cc, chain);
  }

  /** The chain's head is a loaded, expanded parent inside the collection. */
  predicate ExpandedHead(chain: Chain, cc: seq<Id>, nodeMap: map<Id, Node>) {
    chain != [] && Holds(chain, cc) && chain[0] in nodeMap && !IsCollapsed(nodeMap[chain[0]])
  }

  /** The first chain adds an expanded parent exactly when its head is a loaded, expanded record inside the collection. */
  lemma ParentsOfStep(chains: seq<Chain>, cc: seq<Id>, nodeMap: map<Id, Node>)
    requires cc != [] && chains != []
    ensures NoneExpanded(ParentsOf(chains, cc, nodeMap)) <==>
      NoneExpanded(ParentsOf(chains[1..], cc, nodeMap)) && !ExpandedHead(chains[0], cc, nodeMap)
  {
    var rest := ParentsOf(chains[1..], cc, nodeMap);
    var r := ParentsOf(chains, cc, nodeMap);
    WithinHolds(chains[0], cc);
    assert cc[0] in cc;
    if WithinCollection(chains[0], cc) {
      assert r == [Get(nodeMap, chains[0][0])] + rest;
      if !NoneExpanded(rest) {
        var i :| 0 <= i < |rest| && !(rest[i].None? || IsCollapsed(rest[i].value));
        assert r[i + 1] == rest[i];
      }
      if !NoneExpanded(r) {
        var i :| 0 <= i < |r| && !(r[i].None? || IsCollapsed(r[i].value));
        if i > 0 {
          assert r[i] == rest[i - 1];
        }
      }
      if ExpandedHead(chains[0], cc, nodeMap) {
        assert r[0] == Some(nodeMap[chains[0][0]]);
      }
    }
  }

  /** Some parent inside the collection is expanded exactly when some chain inside the collection starts at a loaded, expanded record. */
  lemma {:induction false} ParentsOfIff(chains: seq<Chain>, cc: seq<Id>, nodeMap: map<Id, Node>)
    requires cc != []
    ensures !NoneExpanded(ParentsOf(chains, cc, nodeMap)) <==> exists k :: 0 <= k < |chains| && ExpandedHead(chains[k], cc, nodeMap)
  {
    if chains != [] {
      var tail := chains[1..];
      ParentsOfIff(tail, cc, nodeMap);
      ParentsOfStep(chains, cc, nodeMap);
      if exists k :: 0 <= k < |tail| && ExpandedHead(tail[k], cc, nodeMap) {
        var k :| 0 <= k < |tail| && ExpandedHead(tail[k], cc, nodeMap);
        assert chains[k + 1] == tail[k];
      }
      if exists k :: 0 <= k < |chains| && ExpandedHead(chains[k], cc, nodeMap) {
        var k :| 0 <= k < |chains| && ExpandedHead(chains[k], cc, nodeMap);
        if k > 0 {
          assert tail[k - 1] == chains[k];
        }
      }
    }
  }

  /**
   * A sub-collection is drawn exactly when it is not on the collection's
   * own chain and it is a direct child, or one of its chains inside the
   * collection starts at a loaded parent that is expanded. A parent that is
   * not loaded counts as collapsed.
   */
  lemma KeepCollectionIff(c: Node, cc: seq<Id>, nodeMap: map<Id, Node>)
    requires cc != []
    ensures KeepCollection(c, cc, nodeMap) <==>
      c.id !in cc &&
      (cc in c.collectionChains || exists k :: 0 <= k < |c.collectionChains| && ExpandedHead(c.collectionChains[k], cc, nodeMap))
  {
    ParentsOfIff(c.collectionChains, cc, nodeMap);
  }

  // ---------------------------------------------------------------------------
  // Properties: edges that go outside the collection

  /** A node is outside exactly when none of its chains holds the whole chain of the collection. */
  lemma OutsideIff(n: Node, cc: seq<Id>)
    ensures Outside(n, cc) <==> !SomeChainHolds(n, cc)
  {
    forall k | 0 <= k < |n.collectionChains|
      ensures |Difference(cc, n.collectionChains[k])| > 0 <==> !Holds(n.collectionChains[k], cc)
    {
      WithinHolds(n.collectionChains[k], cc);
    }
  }

  /** Edges whose ends are loaded and inside the collection all pass the filter, in order. */
  lemma {:induction false} KeepInsideAll(edges: seq<Edge>, nodeMap: map<Id, Node>, cc: seq<Id>)
    requires forall e :: e in edges ==>
      e.start in nodeMap && e.end in nodeMap && SomeChainHolds(nodeMap[e.start], cc) && SomeChainHolds(nodeMap[e.end], cc)
    ensures KeepInside(edges, nodeMap, cc) == Ok(edges)
  {
    if edges != [] {
      var e := edges[0];
      assert e in edges;
      assert !Outside(nodeMap[e.start], cc) by {
        OutsideIff(nodeMap[e.start], cc);
      }
      assert !Outside(nodeMap[e.end], cc) by {
        OutsideIff(nodeMap[e.end], cc);
      }
      assert forall x :: x in edges[1..] ==> x in edges;
      KeepInsideAll(edges[1..], nodeMap, cc);
      assert edges == [e] + edges[1..];
    }
  }

  /** The filter only ever drops edges. */
  lemma {:induction false} KeepInsideSubset(edges: seq<Edge>, nodeMap: map<Id, Node>, cc: seq<Id>)
    ensures var r := KeepInside(edges, nodeMap, cc); r.Ok? ==> forall e :: e in r.value ==> e in edges
  {
    if edges != [] {
      KeepInsideSubset(edges[1..], nodeMap, cc);
      assert forall x :: x in edges[1..] ==> x in edges;
    }
  }

  // ---------------------------------------------------------------------------
  // Properties: rerouting

  /** No edge starts and ends at the same id. */
  predicate NoSelfLoops(edges: seq<Edge>) {
    forall e :: e in edges ==> e.start != e.end
  }

  /** An edge is in the rerouted list exactly when rerouting some input edge gives it. */
  lemma {:induction false} RerouteAllMember(edges: seq<Edge>, visible: set<Id>, hidden: set<Id>, c: Id, x: Edge)
    ensures x in RerouteAll(edges, visible, hidden, c) <==> exists e :: e in edges && Reroute(e, visible, hidden, c) == Some(x)
  {
    if edges != [] {
      RerouteAllMember(edges[1..], visible, hidden, c, x);
      assert forall e :: e in edges <==> e == edges[0] || e in edges[1..];
    }
  }

  /**
   * After a collapse every edge either is an input edge between two
   * visible ids, or has been rerouted and joins two different ids; it
   * keeps its id, and each end is the input edge's end or the collapsed
   * collection.
   */
  lemma RerouteAllShape(edges: seq<Edge>, visible: set<Id>, hidden: set<Id>, c: Id, x: Edge)
    requires x in RerouteAll(edges, visible, hidden, c)
    ensures exists e :: (e in edges && e.id == x.id
      && (x.start == e.start || x.start == c) && (x.end == e.end || x.end == c)
      && ((x == e && x.start in visible && x.end in visible) || x.start != x.end))
  {
    RerouteAllMember(edges, visible, hidden, c, x);
  }

  /**
   * An edge that is not between two visible ids, and whose ends the
   * collapse moves onto the same id, leaves the list (edge ids being
   * distinct).
   */
  lemma RerouteDropsMerged(edges: seq<Edge>, visible: set<Id>, hidden: set<Id>, c: Id, e: Edge)
    requires DistinctIds(edges)
    requires e in edges && !(e.start in visible && e.end in visible)
    requires (if e.start in hidden then c else e.start) == (if e.end in hidden then c else e.end)
    ensures forall x :: x in RerouteAll(edges, visible, hidden, c) ==> x.id != e.id
  {
    forall x | x in RerouteAll(edges, visible, hidden, c) ensures x.id != e.id {
      RerouteAllMember(edges, visible, hidden, c, x);
      var e' :| e' in edges && Reroute(e', visible, hidden, c) == Some(x);
      assert e' != e;
      var i :| 0 <= i < |edges| && edges[i] == e;
      var j :| 0 <= j < |edges| && edges[j] == e';
      assert i != j;
      assert edges[i].id != edges[j].id;
    }
  }

  /**
   * A self-loop at a collapse: it stays as it is when its node is visible,
   * and is dropped otherwise, since both of its ends move to the same id.
   */
  lemma RerouteSelfLoop(e: Edge, visible: set<Id>, hidden: set<Id>, c: Id)
    requires e.start == e.end
    ensures Reroute(e, visible, hidden, c) == if e.start in visible then Some(e) else None
  {
  }

  /** Rerouting onto a collection keeps a list free of self-loops. */
  lemma RerouteKeepsNoSelfLoops(edges: seq<Edge>, visible: set<Id>, hidden: set<Id>, c: Id)
    requires NoSelfLoops(edges)
    ensures NoSelfLoops(RerouteAll(edges, visible, hidden, c))
  {
    forall x | x in RerouteAll(edges, visible, hidden, c) ensures x.start != x.end {
      RerouteAllShape(edges, visible, hidden, c, x);
    }
  }

  // ---------------------------------------------------------------------------
  // Properties: the pass

  /** The position of the last collection of `cs` whose member list holds `n`. */
  function LastOwner(cs: seq<Node>, byCollection: map<Id, seq<Id>>, n: Id): (r: Option<nat>)
    ensures r.Some? ==> r.value < |cs| && n in MemberIds(byCollection, cs[r.value].id)
    ensures r.Some? ==> forall i :: r.value < i < |cs| ==> n !in MemberIds(byCollection, cs[i].id)
    ensures r.None? ==> forall i :: 0 <= i < |cs| ==> n !in MemberIds(byCollection, cs[i].id)
  {
    if cs == [] then None
    else if n in MemberIds(byCollection, cs[|cs| - 1].id) then Some(|cs| - 1)
    else LastOwner(cs[..|cs| - 1], byCollection, n)
  }

  /**
   * An id is visible after the pass exactly when the last collection whose
   * member list holds it is expanded, or, when no collection holds it, it
   * was visible before. A node listed by an expanded and a collapsed
   * collection is thus shown or hidden by whichever comes later.
   */
  lemma {:induction false} ProcessVisible(p: Pass, cs: seq<Node>, byCollection: map<Id, seq<Id>>, n: Id)
    ensures n in Process(p, cs, byCollection).visible <==>
      match LastOwner(cs, byCollection, n)
      case None => n in p.visible
      case Some(i) => !IsCollapsed(cs[i])
  {
    if cs != [] {
      var init := cs[..|cs| - 1];
      ProcessVisible(p, init, byCollection, n);
    }
  }

  /** Some collapsed collection of `cs` lists `n` as a member. */
  predicate HiddenBy(cs: seq<Node>, byCollection: map<Id, seq<Id>>, n: Id) {
    exists i :: 0 <= i < |cs| && IsCollapsed(cs[i]) && n in MemberIds(byCollection, cs[i].id)
  }

  /** The hidden ids only grow: an id is hidden after the pass exactly when it was before or a collapsed collection lists it. */
  lemma {:induction false} ProcessHidden(p: Pass, cs: seq<Node>, byCollection: map<Id, seq<Id>>, n: Id)
    ensures n in Process(p, cs, byCollection).hidden <==> n in p.hidden || HiddenBy(cs, byCollection, n)
  {
    if cs != [] {
      var init := cs[..|cs| - 1];
      ProcessHidden(p, init, byCollection, n);
      if HiddenBy(init, byCollection, n) {
        var i :| 0 <= i < |init| && IsCollapsed(init[i]) && n in MemberIds(byCollection, init[i].id);
        assert cs[i] == init[i];
      }
      if HiddenBy(cs, byCollection, n) {
        var i :| 0 <= i < |cs| && IsCollapsed(cs[i]) && n in MemberIds(byCollection, cs[i].id);
        if i < |init| {
          assert cs[i] == init[i];
        }
      }
    }
  }

  /** The collapsed collections of `cs`, first to last, each with the length of its member list. */
  function CollapsedEntries(cs: seq<Node>, byCollection: map<Id, seq<Id>>): seq<Collapsed> {
    if cs == [] then []
    else
      (if IsCollapsed(cs[0]) then [Collapsed(cs[0], |MemberIds(byCollection, cs[0].id)|)] else [])
      + CollapsedEntries(cs[1..], byCollection)
  }

  lemma {:induction false} CollapsedEntriesSnoc(cs: seq<Node>, c: Node, byCollection: map<Id, seq<Id>>)
    ensures CollapsedEntries(cs + [c], byCollection) ==
      CollapsedEntries(cs, byCollection) + (if IsCollapsed(c) then [Collapsed(c, |MemberIds(byCollection, c.id)|)] else [])
  {
    if cs != [] {
      assert (cs + [c])[1..] == cs[1..] + [c];
      CollapsedEntriesSnoc(cs[1..], c, byCollection);
    }
  }

  /** `visibleCollections` lists exactly the collapsed collections, in the order of the pass. */
  lemma {:induction false} ProcessShown(p: Pass, cs: seq<Node>, byCollection: map<Id, seq<Id>>)
    ensures Process(p, cs, byCollection).shown == p.shown + CollapsedEntries(cs, byCollection)
  {
    if cs != [] {
      var init := cs[..|cs| - 1];
      ProcessShown(p, init, byCollection);
      assert cs == init + [cs[|cs| - 1]];
      CollapsedEntriesSnoc(init, cs[|cs| - 1], byCollection);
    }
  }

  /** The pass never creates an edge from an id to itself. */
  lemma {:induction false} ProcessNoSelfLoops(p: Pass, cs: seq<Node>, byCollection: map<Id, seq<Id>>)
    requires NoSelfLoops(p.edges)
    ensures NoSelfLoops(Process(p, cs, byCollection).edges)
  {
    if cs != [] {
      var init := cs[..|cs| - 1];
      ProcessNoSelfLoops(p, init, byCollection);
      var q := Process(p, init, byCollection);
      var c := cs[|cs| - 1];
      if IsCollapsed(c) {
        var ids := MemberIds(byCollection, c.id);
        RerouteKeepsNoSelfLoops(q.edges, q.visible - Elems(ids), q.hidden + Elems(ids), c.id);
      }
    }
  }

  /** The ids of the collapsed collections of `cs`. */
  function CollapsedIds(cs: seq<Node>): set<Id> {
    set i | 0 <= i < |cs| && IsCollapsed(cs[i]) :: cs[i].id
  }

  /**
   * Every edge after the pass carries the id of an input edge, and each of
   * its ends is that edge's end or a collapsed collection.
   */
  lemma {:induction false} ProcessEdgeOrigin(p: Pass, cs: seq<Node>, byCollection: map<Id, seq<Id>>, x: Edge)
    requires x in Process(p, cs, byCollection).edges
    ensures exists e :: (e in p.edges && e.id == x.id
      && (x.start == e.start || x.start in CollapsedIds(cs)) && (x.end == e.end || x.end in CollapsedIds(cs)))
  {
    if cs != [] {
      var init := cs[..|cs| - 1];
      var q := Process(p, init, byCollection);
      var c := cs[|cs| - 1];
      assert CollapsedIds(init) <= CollapsedIds(cs) by {
        forall i | 0 <= i < |init| ensures init[i] == cs[i] { }
      }
      if IsCollapsed(c) {
        var ids := MemberIds(byCollection, c.id);
        RerouteAllShape(q.edges, q.visible - Elems(ids), q.hidden + Elems(ids), c.id, x);
        var e1 :| e1 in q.edges && e1.id == x.id
          && (x.start == e1.start || x.start == c.id) && (x.end == e1.end || x.end == c.id);
        ProcessEdgeOrigin(p, init, byCollection, e1);
        assert c.id in CollapsedIds(cs);
      } else {
        ProcessEdgeOrigin(p, init, byCollection, x);
      }
    }
  }

  /** Two collections with the same id are the same record. */
  predicate IdsDetermine(cs: seq<Node>) {
    forall a, b :: a in cs && b in cs && a.id == b.id ==> a == b
  }

  /** After the pass no edge ends on an expanded collection of the pass. */
  lemma {:induction false} ProcessExpandedGone(p: Pass, cs: seq<Node>, byCollection: map<Id, seq<Id>>, c: Node)
    requires IdsDetermine(cs)
    requires c in cs && !IsCollapsed(c)
    ensures forall x :: x in Process(p, cs, byCollection).edges ==> x.start != c.id && x.end != c.id
  {
    var init := cs[..|cs| - 1];
    var last := cs[|cs| - 1];
    var q := Process(p, init, byCollection);
    if c != last {
      assert c in init by {
        var i :| 0 <= i < |cs| && cs[i] == c;
        assert init[i] == c;
      }
      assert forall a :: a in init ==> a in cs;
      ProcessExpandedGone(p, init, byCollection, c);
      if IsCollapsed(last) {
        var ids := MemberIds(byCollection, last.id);
        forall x | x in Process(p, cs, byCollection).edges ensures x.start != c.id && x.end != c.id {
          RerouteAllShape(q.edges, q.visible - Elems(ids), q.hidden + Elems(ids), last.id, x);
        }
      }
    }
  }

  // ---------------------------------------------------------------------------
  // Properties: the selector

  /** Records of the neighbourhood are stored nodes under their own ids. */
  lemma RecordsStored(s: State, id: Id, order: seq<Id>, n: Node)
    requires Enumerates(order, s.nodes)
    requires WellKeyed(s.nodes, NodeKey)
    requires id in s.collections
    requires Neighbouring(s, id, order).Ok?
    requires Lookup(s.nodes, Neighbouring(s, id, order).value.nodes).Ok?
    ensures var cc := ChainOf(s.collections[id]);
      n in Lookup(s.nodes, Neighbouring(s, id, order).value.nodes).value <==>
        n.id in s.nodes && s.nodes[n.id] == n && NoDup(cc) && SomeChainHolds(n, cc)
  {
    var nb := Neighbouring(s, id, order).value;
    var records := Lookup(s.nodes, nb.nodes).value;
    NeighbouringNodes(s, id, order, n.id);
    if n in records {
      var i :| 0 <= i < |records| && records[i] == n;
      NeighbouringNodes(s, id, order, nb.nodes[i]);
    }
    if n.id in s.nodes && s.nodes[n.id] == n && NoDup(ChainOf(s.collections[id])) && SomeChainHolds(n, ChainOf(s.collections[id])) {
      var i :| 0 <= i < |nb.nodes| && nb.nodes[i] == n.id;
      assert records[i] == n;
    }
  }

  /** The drawn sub-collections of a view that succeeds. */
  lemma ViewDrawn(s: State, id: Id, order: seq<Id>, rank: seq<Chain> -> int)
    requires Enumerates(order, s.nodes)
    requires WellKeyed(s.nodes, NodeKey)
    requires id in s.collections
    ensures var r := ViewOf(s, id, order, rank);
      r.Ok? ==>
        && Neighbouring(s, id, order).Ok?
        && Lookup(s.nodes, Neighbouring(s, id, order).value.nodes).Ok?
        && r.value.collections ==
             Drawn(Lookup(s.nodes, Neighbouring(s, id, order).value.nodes).value, ChainOf(s.collections[id]),
                   NodeMap(s.nodes, Neighbouring(s, id, order).value.nodes), rank)
  {
    var r := ViewOf(s, id, order, rank);
    if r.Ok? {
      var cc := ChainOf(s.collections[id]);
      var nb := Neighbouring(s, id, order);
      assert nb.Ok?;
      var records := Lookup(s.nodes, nb.value.nodes);
      assert records.Ok?;
      var edges := Lookup(s.edges, nb.value.edges);
      assert edges.Ok?;
      var nodeMap := NodeMap(s.nodes, nb.value.nodes);
      assert KeepInside(edges.value, nodeMap, cc).Ok?;
    }
  }

  /** A drawn sub-collection is a collection record of the neighbourhood outside the collection's own chain. */
  lemma DrawnMember(records: seq<Node>, cc: seq<Id>, nodeMap: map<Id, Node>, rank: seq<Chain> -> int, c: Node)
    requires cc != []
    requires c in Drawn(records, cc, nodeMap, rank)
    ensures c in records && c.kind == CollectionType && c.id !in cc
  {
    var sorted := SortByChains(OfKind(records, CollectionType), rank);
    assert c in multiset(sorted);
  }

  /**
   * Every drawn sub-collection is a stored collection record inside the
   * collection, never an id of the collection's own chain, and drawn by
   * the rule of `KeepCollection`.
   */
  lemma ViewCollections(s: State, id: Id, order: seq<Id>, rank: seq<Chain> -> int)
    requires Enumerates(order, s.nodes)
    requires WellKeyed(s.nodes, NodeKey)
    requires id in s.collections
    ensures var r := ViewOf(s, id, order, rank); var cc := ChainOf(s.collections[id]);
      r.Ok? ==> forall c :: c in r.value.collections ==>
        && c.id in s.nodes && s.nodes[c.id] == c && c.kind == CollectionType
        && c.id !in cc && SomeChainHolds(c, cc)
  {
    var r := ViewOf(s, id, order, rank);
    if r.Ok? {
      ViewDrawn(s, id, order, rank);
      var cc := ChainOf(s.collections[id]);
      var nb := Neighbouring(s, id, order).value;
      var records := Lookup(s.nodes, nb.nodes).value;
      var nodeMap := NodeMap(s.nodes, nb.nodes);
      forall c | c in r.value.collections
        ensures c.id in s.nodes && s.nodes[c.id] == c && c.kind == CollectionType && c.id !in cc && SomeChainHolds(c, cc)
      {
        DrawnMember(records, cc, nodeMap, rank, c);
        RecordsStored(s, id, order, c);
      }
    }
  }

  /** With every stored edge under its own id, the filter for edges that go outside the collection drops nothing. */
  lemma ViewEdgeFilterKeepsAll(s: State, id: Id, order: seq<Id>)
    requires Enumerates(order, s.nodes)
    requires WellKeyed(s.nodes, NodeKey)
    requires WellKeyed(s.edges, EdgeKey)
    requires id in s.collections
    ensures var nb := Neighbouring(s, id, order);
      nb.Ok? ==>
        var edges := Lookup(s.edges, nb.value.edges);
        edges.Ok? && KeepInside(edges.value, NodeMap(s.nodes, nb.value.nodes), ChainOf(s.collections[id])) == Ok(edges.value)
  {
    var nb := Neighbouring(s, id, order);
    if nb.Ok? {
      var cc := ChainOf(s.collections[id]);
      var nodeMap := NodeMap(s.nodes, nb.value.nodes);
      forall x | x in nb.value.edges ensures x in s.edges {
        EdgeEndsInside(s, id, order, x);
      }
      var edges := Lookup(s.edges, nb.value.edges).value;
      forall e | e in edges
        ensures e.start in nodeMap && e.end in nodeMap && SomeChainHolds(nodeMap[e.start], cc) && SomeChainHolds(nodeMap[e.end], cc)
      {
        var i :| 0 <= i < |edges| && edges[i] == e;
        EdgeEndsInside(s, id, order, nb.value.edges[i]);
      }
      KeepInsideAll(edges, nodeMap, cc);
    }
  }

  /**
   * The view does not throw over a store whose listed edge ids all have
   * records. An edge whose end has no node record is dropped by
   * `getEdgesForNodes`, which keeps only edges with both ends among the
   * collection's stored nodes, before any read of its ends.
   */
  lemma ViewTotal(s: State, id: Id, order: seq<Id>, rank: seq<Chain> -> int)
    requires Enumerates(order, s.nodes)
    requires WellKeyed(s.nodes, NodeKey)
    requires WellKeyed(s.edges, EdgeKey)
    requires ListedEdgesStored(s)
    ensures ViewOf(s, id, order, rank).Ok?
  {
    if id in s.collections {
      var nodes := NodesUnder(s.nodes, order, ChainOf(s.collections[id]));
      forall y | y in AllEdgeIds(s, nodes) ensures y in s.edges {
        AllEdgeIdsMember(s, nodes, y);
      }
      EdgesForNodesSpec(s, nodes, id);
      var nb := Neighbouring(s, id, order);
      assert nb.Ok?;
      forall x | x in nb.value.nodes ensures x in s.nodes {
        NeighbouringNodes(s, id, order, x);
      }
      ViewEdgeFilterKeepsAll(s, id, order);
    }
  }

  /** Every edge of the neighbourhood is stored, with both ends loaded nodes inside the collection. */
  lemma EdgeEndsInside(s: State, id: Id, order: seq<Id>, x: Id)
    requires Enumerates(order, s.nodes)
    requires WellKeyed(s.nodes, NodeKey)
    requires WellKeyed(s.edges, EdgeKey)
    requires id in s.collections
    requires Neighbouring(s, id, order).Ok?
    requires x in Neighbouring(s, id, order).value.edges
    ensures var nb := Neighbouring(s, id, order).value;
      var nodeMap := NodeMap(s.nodes, nb.nodes);
      var cc := ChainOf(s.collections[id]);
      && x in s.edges
      && s.edges[x].start in nodeMap && s.edges[x].end in nodeMap
      && SomeChainHolds(nodeMap[s.edges[x].start], cc) && SomeChainHolds(nodeMap[s.edges[x].end], cc)
  {
    var nb := Neighbouring(s, id, order).value;
    EdgesForNodesSpec(s, nb.nodes, x);
    NeighbouringNodes(s, id, order, s.edges[x].start);
    NeighbouringNodes(s, id, order, s.edges[x].end);
  }

  /** The edges that pass the filter are stored edges. */
  lemma InsideStored(s: State, id: Id, order: seq<Id>)
    requires Enumerates(order, s.nodes)
    requires id in s.collections
    ensures var nb := Neighbouring(s, id, order);
      nb.Ok? ==>
        var edges := Lookup(s.edges, nb.value.edges);
        edges.Ok? ==>
          var inside := KeepInside(edges.value, NodeMap(s.nodes, nb.value.nodes), ChainOf(s.collections[id]));
          inside.Ok? ==> forall e :: e in inside.value ==> e in s.edges.Values
  {
    var nb := Neighbouring(s, id, order);
    if nb.Ok? && Lookup(s.edges, nb.value.edges).Ok? {
      var edges := Lookup(s.edges, nb.value.edges).value;
      KeepInsideSubset(edges, NodeMap(s.nodes, nb.value.nodes), ChainOf(s.collections[id]));
      forall e | e in edges ensures e in s.edges.Values {
        var i :| 0 <= i < |edges| && edges[i] == e;
        assert s.edges[nb.value.edges[i]] == e;
      }
    }
  }

  /** Without a stored self-loop, the view draws no edge from a node or collection to itself. */
  lemma ViewNoSelfLoops(s: State, id: Id, order: seq<Id>, rank: seq<Chain> -> int)
    requires Enumerates(order, s.nodes)
    requires WellKeyed(s.nodes, NodeKey)
    requires forall k :: k in s.edges ==> s.edges[k].start != s.edges[k].end
    ensures var r := ViewOf(s, id, order, rank); r.Ok? ==> NoSelfLoops(r.value.edges)
  {
    var r := ViewOf(s, id, order, rank);
    if r.Ok? && id in s.collections {
      var cc := ChainOf(s.collections[id]);
      var nb := Neighbouring(s, id, order).value;
      var records := Lookup(s.nodes, nb.nodes).value;
      var nodes := OfKind(records, NodeType);
      var edges := Lookup(s.edges, nb.edges).value;
      var nodeMap := NodeMap(s.nodes, nb.nodes);
      var inside := KeepInside(edges, nodeMap, cc).value;
      InsideStored(s, id, order);
      ProcessNoSelfLoops(Pass(DirectChildren(nodes, cc), {}, [], inside), Drawn(records, cc, nodeMap, rank), s.byCollection);
    }
  }

  /** No drawn edge ends on an expanded sub-collection. */
  lemma ViewExpandedUnconnected(s: State, id: Id, order: seq<Id>, rank: seq<Chain> -> int)
    requires Enumerates(order, s.nodes)
    requires WellKeyed(s.nodes, NodeKey)
    ensures var r := ViewOf(s, id, order, rank);
      r.Ok? ==> forall c, x :: c in r.value.collections && !IsCollapsed(c) && x in r.value.edges ==> x.start != c.id && x.end != c.id
  {
    var r := ViewOf(s, id, order, rank);
    if r.Ok? && id in s.collections {
      var cc := ChainOf(s.collections[id]);
      var nb := Neighbouring(s, id, order).value;
      var records := Lookup(s.nodes, nb.nodes).value;
      var nodes := OfKind(records, NodeType);
      var edges := Lookup(s.edges, nb.edges).value;
      var nodeMap := NodeMap(s.nodes, nb.nodes);
      var inside := KeepInside(edges, nodeMap, cc).value;
      var drawn := Drawn(records, cc, nodeMap, rank);
      ViewCollections(s, id, order, rank);
      assert IdsDetermine(drawn);
      forall c | c in drawn && !IsCollapsed(c)
        ensures forall x :: x in r.value.edges ==> x.start != c.id && x.end != c.id
      {
        ProcessExpandedGone(Pass(DirectChildren(nodes, cc), {}, [], inside), drawn, s.byCollection, c);
      }
    }
  }

  /** `visibleCollections` lists the collapsed drawn sub-collections in drawing order, each with the length of its member list. */
  lemma ViewShown(s: State, id: Id, order: seq<Id>, rank: seq<Chain> -> int)
    requires Enumerates(order, s.nodes)
    requires WellKeyed(s.nodes, NodeKey)
    ensures var r := ViewOf(s, id, order, rank);
      r.Ok? ==> r.value.visibleCollections == CollapsedEntries(r.value.collections, s.byCollection)
  {
    var r := ViewOf(s, id, order, rank);
    if r.Ok? && id in s.collections {
      var cc := ChainOf(s.collections[id]);
      var nb := Neighbouring(s, id, order).value;
      var records := Lookup(s.nodes, nb.nodes).value;
      var nodes := OfKind(records, NodeType);
      var edges := Lookup(s.edges, nb.edges).value;
      var nodeMap := NodeMap(s.nodes, nb.nodes);
      var inside := KeepInside(edges, nodeMap, cc).value;
      ProcessShown(Pass(DirectChildren(nodes, cc), {}, [], inside), Drawn(records, cc, nodeMap, rank), s.byCollection);
    }
  }

  /**
   * Every drawn edge is a stored edge under its own id, and each of its
   * ends is the stored end or a collapsed sub-collection it was moved to.
   */
  lemma ViewEdgeOrigin(s: State, id: Id, order: seq<Id>, rank: seq<Chain> -> int)
    requires Enumerates(order, s.nodes)
    requires WellKeyed(s.nodes, NodeKey)
    requires WellKeyed(s.edges, EdgeKey)
    ensures var r := ViewOf(s, id, order, rank);
      r.Ok? ==> forall x :: x in r.value.edges ==>
        && x.id in s.edges
        && (x.start == s.edges[x.id].start || x.start in CollapsedIds(r.value.collections))
        && (x.end == s.edges[x.id].end || x.end in CollapsedIds(r.value.collections))
  {
    var r := ViewOf(s, id, order, rank);
    if r.Ok? && id in s.collections {
      var cc := ChainOf(s.collections[id]);
      var nb := Neighbouring(s, id, order).value;
      var records := Lookup(s.nodes, nb.nodes).value;
      var nodes := OfKind(records, NodeType);
      var edges := Lookup(s.edges, nb.edges).value;
      var nodeMap := NodeMap(s.nodes, nb.nodes);
      var inside := KeepInside(edges, nodeMap, cc).value;
      var drawn := Drawn(records, cc, nodeMap, rank);
      var p0 := Pass(DirectChildren(nodes, cc), {}, [], inside);
      InsideStored(s, id, order);
      forall x | x in r.value.edges
        ensures x.id in s.edges
        ensures x.start == s.edges[x.id].start || x.start in CollapsedIds(drawn)
        ensures x.end == s.edges[x.id].end || x.end in CollapsedIds(drawn)
      {
        ProcessEdgeOrigin(p0, drawn, s.byCollection, x);
        var e :| e in inside && e.id == x.id
          && (x.start == e.start || x.start in CollapsedIds(drawn)) && (x.end == e.end || x.end in CollapsedIds(drawn));
        assert e in s.edges.Values;
      }
    }
  }

  /** Among records with distinct ids, a record's id is a direct child exactly when the record has `cc` among its chains. */
  lemma DirectChildrenIff(nodes: seq<Node>, cc: seq<Id>, n: Node)
    requires n in nodes
    requires IdsDetermine(nodes)
    ensures n.id in DirectChildren(nodes, cc) <==> cc in n.collectionChains
  {
    var k :| 0 <= k < |nodes| && nodes[k] == n;
    if n.id in DirectChildren(nodes, cc) {
      var i :| 0 <= i < |nodes| && cc in nodes[i].collectionChains && nodes[i].id == n.id;
      assert nodes[i] in nodes;
    }
  }

  /**
   * The plain nodes drawn: stored node records inside the collection whose
   * last listing collection among the drawn ones is expanded, or, listed by
   * none of them, that are direct children of the collection.
   */
  lemma ViewNodes(s: State, id: Id, order: seq<Id>, rank: seq<Chain> -> int, n: Node)
    requires Enumerates(order, s.nodes)
    requires WellKeyed(s.nodes, NodeKey)
    requires id in s.collections
    ensures var r := ViewOf(s, id, order, rank); var cc := ChainOf(s.collections[id]);
      r.Ok? ==> (n in r.value.nodes <==>
        && n.id in s.nodes && s.nodes[n.id] == n && n.kind == NodeType && NoDup(cc) && SomeChainHolds(n, cc)
        && match LastOwner(r.value.collections, s.byCollection, n.id)
           case None => cc in n.collectionChains
           case Some(i) => !IsCollapsed(r.value.collections[i]))
  {
    var r := ViewOf(s, id, order, rank);
    if r.Ok? {
      var cc := ChainOf(s.collections[id]);
      var nb := Neighbouring(s, id, order).value;
      var records := Lookup(s.nodes, nb.nodes).value;
      var nodes := OfKind(records, NodeType);
      var edges := Lookup(s.edges, nb.edges).value;
      var nodeMap := NodeMap(s.nodes, nb.nodes);
      var inside := KeepInside(edges, nodeMap, cc).value;
      var drawn := Drawn(records, cc, nodeMap, rank);
      var p0 := Pass(DirectChildren(nodes, cc), {}, [], inside);
      assert r.value.nodes == VisibleNodes(nodes, Process(p0, drawn, s.byCollection).visible);
      assert r.value.collections == drawn;
      RecordsStored(s, id, order, n);
      ProcessVisible(p0, drawn, s.byCollection, n.id);
      if n in nodes {
        assert IdsDetermine(nodes) by {
          forall a, b | a in nodes && b in nodes && a.id == b.id ensures a == b {
            RecordsStored(s, id, order, a);
            RecordsStored(s, id, order, b);
          }
        }
        DirectChildrenIff(nodes, cc, n);
      }
    }
  }

  /** Toggling a collapsed or expanded collection twice gives back the view of every collection. */
  lemma ToggleTwiceKeepsView(s: State, c: Id, id: Id, order: seq<Id>, rank: seq<Chain> -> int)
    requires Enumerates(order, s.nodes)
    requires WellKeyed(s.nodes, NodeKey)
    requires c in s.nodes && s.nodes[c].collapsed.Some?
    ensures var a := Action(ToggleCollapseCollection(c), NoEntities);
      var once := RootReduce(s, a);
      && once.Ok?
      && var twice := RootReduce(once.value, a);
      && twice.Ok?
      && Enumerates(order, twice.value.nodes)
      && WellKeyed(twice.value.nodes, NodeKey)
      && ViewOf(twice.value, id, order, rank) == ViewOf(s, id, order, rank)
  {
    Store.ToggleTwice(s, c);
  }

  // ---------------------------------------------------------------------------
  // Worked cases

  /**
   * A collapsed collection `C1` with members `n1` and `n2`: the edge between
   * its members goes, the edge from `n1` to the outside node `n3` now starts
   * at `C1`, and `C1` is listed with two members.
   */
  lemma CollapseExample()
    ensures var c1 := Node("C1", CollectionType, [["P"]], Some(true), None, None, None, None);
      var p := Pass({"n1", "n2", "n3"}, {}, [], [Edge("e1", "n1", "n2"), Edge("e2", "n1", "n3")]);
      Step(p, c1, map["C1" := ["n1", "n2"]]) == Pass({"n3"}, {"n1", "n2"}, [Collapsed(c1, 2)], [Edge("e2", "C1", "n3")])
  {
    var c1 := Node("C1", CollectionType, [["P"]], Some(true), None, None, None, None);
    var p := Pass({"n1", "n2", "n3"}, {}, [], [Edge("e1", "n1", "n2"), Edge("e2", "n1", "n3")]);
    var ids := MemberIds(map["C1" := ["n1", "n2"]], "C1");
    assert ids == ["n1", "n2"];
    assert Elems(ids) == {"n1", "n2"};
    var visible := p.visible - Elems(ids);
    var hidden := p.hidden + Elems(ids);
    assert visible == {"n3"};
    assert "n1" !in visible && "n1" in hidden && "n2" in hidden && "n3" !in hidden;
    assert Reroute(Edge("e1", "n1", "n2"), visible, hidden, "C1") == None;
    assert Reroute(Edge("e2", "n1", "n3"), visible, hidden, "C1") == Some(Edge("e2", "C1", "n3"));
    assert RerouteAll([Edge("e2", "n1", "n3")], visible, hidden, "C1") == [Edge("e2", "C1", "n3")];
  }

  /**
   * An expanded collection `C2` with member `n4` after `C1` collapsed: `n4`
   * becomes visible, an edge ending on `C2` goes, and an edge already
   * rerouted to `C1` stays.
   */
  lemma ExpandExample()
    ensures var c2 := Node("C2", CollectionType, [["P"]], Some(false), None, None, None, None);
      var p := Pass({"n3"}, {"n1"}, [], [Edge("e2", "C1", "n3"), Edge("e3", "n3", "C2")]);
      Step(p, c2, map["C2" := ["n4"]]) == Pass({"n3", "n4"}, {"n1"}, [], [Edge("e2", "C1", "n3")])
  {
    var ids := MemberIds(map["C2" := ["n4"]], "C2");
    assert ids == ["n4"];
    assert Elems(ids) == {"n4"};
  }
}
