/**
 * The reducer `edgeListMap`: for every node the ids of its outgoing
 * (`from`) and incoming (`to`) edges. A fetch first gives every node id of
 * the response an empty entry if it has none, then pushes each response
 * edge's id onto its endpoints' lists when both endpoints have entries.
 */
module EdgeLists {
  import opened Types
  import opened Lists
  import opened Merge

  const Empty: EdgeList := EdgeList([], [])

  /** The ids of the edges pushed onto `k`'s `from` list: edges leaving `k` with both endpoints in `keys`, in batch order. */
  function Outs(edges: seq<Edge>, keys: set<Id>, k: Id): seq<Id> {
    if edges == [] then []
    else
      var e := edges[|edges| - 1];
      Outs(edges[..|edges| - 1], keys, k) + (if e.start == k && e.start in keys && e.end in keys then [e.id] else [])
  }

  /** The ids of the edges pushed onto `k`'s `to` list: edges entering `k` with both endpoints in `keys`, in batch order. */
  function Ins(edges: seq<Edge>, keys: set<Id>, k: Id): seq<Id> {
    if edges == [] then []
    else
      var e := edges[|edges| - 1];
      Ins(edges[..|edges| - 1], keys, k) + (if e.end == k && e.start in keys && e.end in keys then [e.id] else [])
  }

  /** The map after the node phase: every id of the response's nodes has an entry, existing entries untouched. */
  function Seeded(state: map<Id, EdgeList>, nodes: seq<Node>): map<Id, EdgeList> {
    map k | k in state.Keys + BatchKeys(nodes, NodeKey) :: if k in state then state[k] else Empty
  }

  /** The map after the edge phase: every entry with the ids of the batch edges it takes pushed onto its lists. */
  function Linked(m: map<Id, EdgeList>, edges: seq<Edge>): map<Id, EdgeList> {
    map k | k in m :: EdgeList(m[k].from + Outs(edges, m.Keys, k), m[k].to + Ins(edges, m.Keys, k))
  }

  /** The `default:` branch. */
  function Fetched(state: map<Id, EdgeList>, es: Entities): map<Id, EdgeList> {
    var seeded := if es.nodes.Some? then Seeded(state, es.nodes.value) else state;
    if es.edges.Some? then Linked(seeded, es.edges.value) else seeded
  }

  /** REMOVE_EDGE_SUCCESS: both endpoints must have entries; the entry for `end` is written last, from the old state. */
  function RemoveEdge(state: map<Id, EdgeList>, e: Id, s: Id, t: Id): Result<map<Id, EdgeList>> {
    if s !in state then Err(MissingRecord(s))
    else if t !in state then Err(MissingRecord(t))
    else Ok(state[s := EdgeList(Without(state[s].from, e), state[s].to)]
                 [t := EdgeList(state[t].from, Without(state[t].to, e))])
  }

  /** The pure reducer: what the method `Reducer` computes. */
  function Reduce(state: map<Id, EdgeList>, a: Action): Result<map<Id, EdgeList>> {
    match a.event
    case RemoveNodeSuccess(n, _) => Ok(state - {n})
    case RemoveEdgeSuccess(e, s, t) => RemoveEdge(state, e, s, t)
    case _ => Ok(Fetched(state, a.entities))
  }

  /** The node phase as a loop over the response's nodes. */
  method Seed(state: map<Id, EdgeList>, nodes: seq<Node>) returns (m: map<Id, EdgeList>)
    ensures m == Seeded(state, nodes)
  {
    m := state;
    var i := 0;
    while i < |nodes|
      invariant 0 <= i <= |nodes|
      invariant m == Seeded(state, nodes[..i])
    {
      SeedStep(state, nodes, i);
      var id := nodes[i].id;
      if id !in m {
        m := m[id := Empty];
      }
      i := i + 1;
    }
    assert nodes[..i] == nodes;
  }

  /** The edge phase as a loop over the response's edges. */
  method Link(m0: map<Id, EdgeList>, edges: seq<Edge>) returns (m: map<Id, EdgeList>)
    ensures m == Linked(m0, edges)
  {
    m := m0;
    var i := 0;
    while i < |edges|
      invariant 0 <= i <= |edges|
      invariant m == PushAll(m0, edges[..i])
    {
      var e := edges[i];
      ghost var prev := m;
      if e.start in m && e.end in m {
        m := m[e.start := m[e.start].(from := m[e.start].from + [e.id])];
        m := m[e.end := m[e.end].(to := m[e.end].to + [e.id])];
      }
      assert edges[..i + 1][..i] == edges[..i];
      assert m == Push(prev, e);
      i := i + 1;
    }
    assert edges[..i] == edges;
    PushAllLinked(m0, edges);
  }

  /** The reducer as the original runs it. */
  method Reducer(state: map<Id, EdgeList>, a: Action) returns (r: Result<map<Id, EdgeList>>)
    ensures r == Reduce(state, a)
  {
    if a.event.RemoveNodeSuccess? {
      r := Ok(state - {a.event.nodeId});
    } else if a.event.RemoveEdgeSuccess? {
      r := RemoveEdge(state, a.event.edgeId, a.event.start, a.event.end);
    } else {
      var m := state;
      if a.entities.nodes.Some? {
        m := Seed(m, a.entities.nodes.value);
      }
      if a.entities.edges.Some? {
        m := Link(m, a.entities.edges.value);
      }
      assert m == Fetched(state, a.entities);
      r := Ok(m);
    }
  }

  // ---------------------------------------------------------------------------
  // Loop steps

  lemma SeedStep(state: map<Id, EdgeList>, nodes: seq<Node>, i: nat)
    requires i < |nodes|
    ensures var prev := Seeded(state, nodes[..i]);
      var id := nodes[i].id;
      Seeded(state, nodes[..i + 1]) == if id in prev then prev else prev[id := Empty]
  {
    var id := nodes[i].id;
    var prev := Seeded(state, nodes[..i]);
    assert BatchKeys(nodes[..i + 1], NodeKey) == BatchKeys(nodes[..i], NodeKey) + {id} by {
      forall x | x in BatchKeys(nodes[..i + 1], NodeKey) ensures x in BatchKeys(nodes[..i], NodeKey) + {id} {
        var j :| 0 <= j < i + 1 && NodeKey(nodes[..i + 1][j]) == x;
        if j < i {
          assert nodes[..i][j] == nodes[..i + 1][j];
        }
      }
      forall x | x in BatchKeys(nodes[..i], NodeKey) ensures x in BatchKeys(nodes[..i + 1], NodeKey) {
        var j :| 0 <= j < i && NodeKey(nodes[..i][j]) == x;
        assert nodes[..i + 1][j] == nodes[..i][j];
      }
      assert NodeKey(nodes[..i + 1][i]) == id;
    }
  }

  lemma OutsInsSnoc(edges: seq<Edge>, keys: set<Id>, i: nat, k: Id)
    requires i < |edges|
    ensures var e := edges[i];
      && Outs(edges[..i + 1], keys, k) == Outs(edges[..i], keys, k) + (if e.start == k && e.start in keys && e.end in keys then [e.id] else [])
      && Ins(edges[..i + 1], keys, k) == Ins(edges[..i], keys, k) + (if e.end == k && e.start in keys && e.end in keys then [e.id] else [])
  {
    assert edges[..i + 1][..i] == edges[..i];
  }

  /** One more edge, seen from entry `k`: its id is pushed onto `from` if `k` is its start and `to` if `k` is its end, when both ends are keys. */
  lemma LinkStepAt(m0: map<Id, EdgeList>, edges: seq<Edge>, i: nat, k: Id)
    requires i < |edges| && k in m0
    ensures var prev := Linked(m0, edges[..i]);
      var e := edges[i];
      var linked := e.start in m0 && e.end in m0;
      Linked(m0, edges[..i + 1])[k] ==
        EdgeList(prev[k].from + (if linked && e.start == k then [e.id] else []),
                 prev[k].to + (if linked && e.end == k then [e.id] else []))
  {
    OutsInsSnoc(edges, m0.Keys, i, k);
  }

  /** One iteration of the edge loop: when both ends have entries, the id goes onto `start.from`, then onto `end.to`. */
  function Push(m: map<Id, EdgeList>, e: Edge): map<Id, EdgeList> {
    if e.start in m && e.end in m then
      var m1 := m[e.start := m[e.start].(from := m[e.start].from + [e.id])];
      m1[e.end := m1[e.end].(to := m1[e.end].to + [e.id])]
    else m
  }

  lemma PushAt(m: map<Id, EdgeList>, e: Edge, k: Id)
    requires k in m
    ensures Push(m, e).Keys == m.Keys
    ensures var linked := e.start in m && e.end in m;
      Push(m, e)[k] ==
        EdgeList(m[k].from + (if linked && e.start == k then [e.id] else []),
                 m[k].to + (if linked && e.end == k then [e.id] else []))
  {
    if e.start in m && e.end in m {
      var m1 := m[e.start := m[e.start].(from := m[e.start].from + [e.id])];
      assert m1[k] == EdgeList(m[k].from + (if e.start == k then [e.id] else []), m[k].to);
    } else {
      assert m[k].from + [] == m[k].from && m[k].to + [] == m[k].to;
    }
  }

  /** The edge loop's iterations one after another. */
  function PushAll(m: map<Id, EdgeList>, edges: seq<Edge>): map<Id, EdgeList> {
    if edges == [] then m else Push(PushAll(m, edges[..|edges| - 1]), edges[|edges| - 1])
  }

  lemma {:induction false} PushAllLinked(m0: map<Id, EdgeList>, edges: seq<Edge>)
    ensures PushAll(m0, edges) == Linked(m0, edges)
  {
    if edges == [] {
      forall k | k in m0 ensures Linked(m0, edges)[k] == m0[k] {
        assert m0[k].from + [] == m0[k].from && m0[k].to + [] == m0[k].to;
      }
    } else {
      var i := |edges| - 1;
      PushAllLinked(m0, edges[..i]);
      LinkStep(m0, edges, i);
      assert edges[..i + 1] == edges;
    }
  }

  lemma LinkStep(m0: map<Id, EdgeList>, edges: seq<Edge>, i: nat)
    requires i < |edges|
    ensures Linked(m0, edges[..i + 1]) == Push(Linked(m0, edges[..i]), edges[i])
  {
    var prev := Linked(m0, edges[..i]);
    var next := Linked(m0, edges[..i + 1]);
    var want := Push(prev, edges[i]);
    forall k | k in m0 ensures k in want && next[k] == want[k] {
      LinkStepAt(m0, edges, i, k);
      PushAt(prev, edges[i], k);
    }
    assert next.Keys == want.Keys;
  }

  // ---------------------------------------------------------------------------
  // Properties

  /** The id of edge `x` is pushed onto `k`'s `from` list exactly when a batch edge with that id leaves `k` and both its ends are keys. */
  lemma {:induction false} OutsMember(edges: seq<Edge>, keys: set<Id>, k: Id, x: Id)
    ensures x in Outs(edges, keys, k) <==>
      exists i :: 0 <= i < |edges| && edges[i].id == x && edges[i].start == k && edges[i].start in keys && edges[i].end in keys
  {
    if edges != [] {
      var init, e := edges[..|edges| - 1], edges[|edges| - 1];
      OutsMember(init, keys, k, x);
      var step := if e.start == k && e.start in keys && e.end in keys then [e.id] else [];
      assert Outs(edges, keys, k) == Outs(init, keys, k) + step;
      assert x in Outs(edges, keys, k) <==> x in Outs(init, keys, k) || x in step;
      if exists i :: 0 <= i < |init| && init[i].id == x && init[i].start == k && init[i].start in keys && init[i].end in keys {
        var i :| 0 <= i < |init| && init[i].id == x && init[i].start == k && init[i].start in keys && init[i].end in keys;
        assert edges[i] == init[i];
      }
      if exists i :: 0 <= i < |edges| && edges[i].id == x && edges[i].start == k && edges[i].start in keys && edges[i].end in keys {
        var i :| 0 <= i < |edges| && edges[i].id == x && edges[i].start == k && edges[i].start in keys && edges[i].end in keys;
        if i < |init| {
          assert init[i] == edges[i];
        }
      }
    }
  }

  /** The id of edge `x` is pushed onto `k`'s `to` list exactly when a batch edge with that id enters `k` and both its ends are keys. */
  lemma {:induction false} InsMember(edges: seq<Edge>, keys: set<Id>, k: Id, x: Id)
    ensures x in Ins(edges, keys, k) <==>
      exists i :: 0 <= i < |edges| && edges[i].id == x && edges[i].end == k && edges[i].start in keys && edges[i].end in keys
  {
    if edges != [] {
      var init, e := edges[..|edges| - 1], edges[|edges| - 1];
      InsMember(init, keys, k, x);
      var step := if e.end == k && e.start in keys && e.end in keys then [e.id] else [];
      assert Ins(edges, keys, k) == Ins(init, keys, k) + step;
      assert x in Ins(edges, keys, k) <==> x in Ins(init, keys, k) || x in step;
      if exists i :: 0 <= i < |init| && init[i].id == x && init[i].end == k && init[i].start in keys && init[i].end in keys {
        var i :| 0 <= i < |init| && init[i].id == x && init[i].end == k && init[i].start in keys && init[i].end in keys;
        assert edges[i] == init[i];
      }
      if exists i :: 0 <= i < |edges| && edges[i].id == x && edges[i].end == k && edges[i].start in keys && edges[i].end in keys {
        var i :| 0 <= i < |edges| && edges[i].id == x && edges[i].end == k && edges[i].start in keys && edges[i].end in keys;
        if i < |init| {
          assert init[i] == edges[i];
        }
      }
    }
  }

  /**
   * A fetch with nodes and no edges gives every newly seen node id an empty
   * entry and leaves every existing entry as it was.
   */
  lemma SeedEffect(state: map<Id, EdgeList>, nodes: seq<Node>)
    ensures var r := Fetched(state, Entities(Some(nodes), None, None, None));
      && r.Keys == state.Keys + BatchKeys(nodes, NodeKey)
      && (forall k :: k in state ==> r[k] == state[k])
      && (forall k :: k in r && k !in state ==> r[k] == Empty)
  {
  }

  /**
   * After a fetch, every entry is its seeded entry with some edge ids
   * appended; an id is appended to `from` of `k` exactly when a fetched
   * edge with that id starts at `k` and both its endpoints have entries
   * (and symmetrically for `to`).
   */
  lemma FetchedEdges(state: map<Id, EdgeList>, es: Entities, k: Id, x: Id)
    requires es.edges.Some?
    ensures var seeded := if es.nodes.Some? then Seeded(state, es.nodes.value) else state;
      var r := Fetched(state, es);
      var edges := es.edges.value;
      && r.Keys == seeded.Keys
      && (k in r ==>
            && r[k].from[..|seeded[k].from|] == seeded[k].from
            && r[k].to[..|seeded[k].to|] == seeded[k].to
            && (x in r[k].from[|seeded[k].from|..] <==>
                  exists i :: 0 <= i < |edges| && edges[i].id == x && edges[i].start == k && edges[i].start in seeded && edges[i].end in seeded)
            && (x in r[k].to[|seeded[k].to|..] <==>
                  exists i :: 0 <= i < |edges| && edges[i].id == x && edges[i].end == k && edges[i].start in seeded && edges[i].end in seeded))
  {
    var seeded := if es.nodes.Some? then Seeded(state, es.nodes.value) else state;
    var r := Fetched(state, es);
    if k in r {
      assert r[k].from[|seeded[k].from|..] == Outs(es.edges.value, seeded.Keys, k);
      assert r[k].to[|seeded[k].to|..] == Ins(es.edges.value, seeded.Keys, k);
      OutsMember(es.edges.value, seeded.Keys, k, x);
      InsMember(es.edges.value, seeded.Keys, k, x);
    }
  }

  /**
   * Removing an edge between two distinct nodes with entries takes its id
   * out of `from` of the start and `to` of the end and changes nothing else;
   * a missing endpoint makes the removal throw.
   */
  lemma RemoveEdgeEffect(state: map<Id, EdgeList>, e: Id, s: Id, t: Id)
    ensures var r := Reduce(state, Action(RemoveEdgeSuccess(e, s, t), NoEntities));
      && (r.Ok? <==> s in state && t in state)
      && (r.Ok? && s != t ==>
            && r.value.Keys == state.Keys
            && r.value[s] == EdgeList(Without(state[s].from, e), state[s].to)
            && r.value[t] == EdgeList(state[t].from, Without(state[t].to, e))
            && e !in r.value[s].from && e !in r.value[t].to
            && forall k :: k in state && k != s && k != t ==> r.value[k] == state[k])
  {
  }

  /**
   * For a self-loop the entry written last wins: the id leaves `to` but
   * stays in `from`.
   */
  lemma RemoveSelfLoopKeepsFrom(state: map<Id, EdgeList>, e: Id, s: Id)
    requires s in state && e in state[s].from
    ensures var r := Reduce(state, Action(RemoveEdgeSuccess(e, s, s), NoEntities));
      r.Ok? && e in r.value[s].from && e !in r.value[s].to
  {
  }
}
