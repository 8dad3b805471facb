/**
 * The neighbourhood caches `pathL1Cache` and `pathL2Cache`: per node, the
 * node ids and edge ids of the path last fetched around it.
 */
module Paths {
  import opened Types

  /** The `pathL1Cache` reducer: a fetch stores the node itself followed by its neighbours. */
  function L1Reduce(state: map<Id, Path>, a: Action): map<Id, Path>
  {
    match a.event
    case RemoveNodeSuccess(n, _) => state - {n}
    case GetNodeL1Success(node, connected, edgeIds) => state[node := Path([node] + connected, edgeIds)]
    case _ => state
  }

  /**
   * The cached endpoints of a new edge: `_.intersection(Object.keys(state),
   * [start, end])`, each at most once. The original keeps the enumeration
   * order of the cache; since each key is updated once and independently of
   * the others, the order does not affect the result.
   */
  function CachedEnds(state: map<Id, Path>, s: Id, t: Id): (r: seq<Id>)
    ensures forall k :: k in r <==> k in state && (k == s || k == t)
    ensures |r| <= 2 && (|r| == 2 ==> r[0] != r[1])
  {
    (if s in state then [s] else []) + (if t in state && t != s then [t] else [])
  }

  /** The end of the new edge that is not `k` (`k` itself for a self-loop). */
  function OtherEnd(k: Id, s: Id, t: Id): Id {
    if k == s then t else s
  }

  /** The `_.reduce` over the cached endpoints: each gets the other end and the new edge id appended. */
  function Extend(state: map<Id, Path>, keys: seq<Id>, s: Id, t: Id, e: Id): (r: map<Id, Path>)
    requires forall k :: k in keys ==> k in state
    ensures r.Keys == state.Keys
  {
    if keys == [] then state
    else
      var prev := Extend(state, keys[..|keys| - 1], s, t, e);
      var k := keys[|keys| - 1];
      prev[k := Path(prev[k].nodes + [OtherEnd(k, s, t)], prev[k].edges + [e])]
  }

  /** The `pathL2Cache` reducer. The test `!l2Keys` at index.js:424 never holds (an array is truthy) and is not modelled. */
  function L2Reduce(state: map<Id, Path>, a: Action): map<Id, Path> {
    match a.event
    case RemoveNodeSuccess(n, _) => state - {n}
    case ConnectNodesSuccess(s, t, e) => Extend(state, CachedEnds(state, s, t), s, t, e)
    case AddEdgeSuccess(s, t, e) => Extend(state, CachedEnds(state, s, t), s, t, e)
    case GetNodeL2Success(node, connected, edgeIds) => state[node := Path(connected, edgeIds)]
    case _ => state
  }

  // ---------------------------------------------------------------------------
  // Properties

  /** Extending along distinct keys changes exactly those keys, each once. */
  lemma {:induction false} ExtendAt(state: map<Id, Path>, keys: seq<Id>, s: Id, t: Id, e: Id)
    requires forall k :: k in keys ==> k in state
    requires forall i, j :: 0 <= i < j < |keys| ==> keys[i] != keys[j]
    ensures forall k :: k in state ==>
      Extend(state, keys, s, t, e)[k] == (if k in keys then Path(state[k].nodes + [OtherEnd(k, s, t)], state[k].edges + [e]) else state[k])
  {
    if keys != [] {
      var init := keys[..|keys| - 1];
      ExtendAt(state, init, s, t, e);
      assert forall k :: k in keys <==> k in init || k == keys[|keys| - 1];
      assert keys[|keys| - 1] !in init;
    }
  }

  /**
   * A new edge changes only the cached entries keyed by its endpoints: each
   * gets the other endpoint and the new edge id appended. The cache keeps
   * its keys, so uncached endpoints stay uncached.
   */
  lemma ConnectEffect(state: map<Id, Path>, s: Id, t: Id, e: Id)
    ensures var r := L2Reduce(state, Action(ConnectNodesSuccess(s, t, e), NoEntities));
      && r == L2Reduce(state, Action(AddEdgeSuccess(s, t, e), NoEntities))
      && r.Keys == state.Keys
      && (forall k :: k in state && k != s && k != t ==> r[k] == state[k])
      && (forall k :: k in state && (k == s || k == t) ==>
            r[k] == Path(state[k].nodes + [OtherEnd(k, s, t)], state[k].edges + [e]))
  {
    ExtendAt(state, CachedEnds(state, s, t), s, t, e);
  }

  /** When neither endpoint is cached the cache is returned as it was (the case the dead `!l2Keys` test was evidently for). */
  lemma ConnectUncachedUnchanged(state: map<Id, Path>, s: Id, t: Id, e: Id)
    requires s !in state && t !in state
    ensures L2Reduce(state, Action(ConnectNodesSuccess(s, t, e), NoEntities)) == state
  {
    assert CachedEnds(state, s, t) == [];
  }

  /** A level-2 fetch replaces the entry wholesale; a level-1 fetch stores the node first, then its neighbours. */
  lemma FetchEffect(l1: map<Id, Path>, l2: map<Id, Path>, node: Id, connected: seq<Id>, edgeIds: seq<Id>)
    ensures var r1 := L1Reduce(l1, Action(GetNodeL1Success(node, connected, edgeIds), NoEntities));
      var r2 := L2Reduce(l2, Action(GetNodeL2Success(node, connected, edgeIds), NoEntities));
      && r1[node].nodes[0] == node && r1[node].nodes[1..] == connected && r1[node].edges == edgeIds
      && r2[node] == Path(connected, edgeIds)
      && r1.Keys == l1.Keys + {node} && r2.Keys == l2.Keys + {node}
      && (forall k :: k in l1 && k != node ==> r1[k] == l1[k])
      && (forall k :: k in l2 && k != node ==> r2[k] == l2[k])
  {
  }

  /** Fetching the same neighbourhood twice leaves the caches as fetching it once. */
  lemma FetchTwice(l1: map<Id, Path>, l2: map<Id, Path>, a: Action)
    requires a.event.GetNodeL1Success? || a.event.GetNodeL2Success?
    ensures L1Reduce(L1Reduce(l1, a), a) == L1Reduce(l1, a)
    ensures L2Reduce(L2Reduce(l2, a), a) == L2Reduce(l2, a)
  {
  }
}
