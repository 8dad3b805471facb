/**
 * The small selectors over the store: a node's direct neighbours, its edge
 * ids, the edges among a set of nodes, the nodes and edges of a
 * collection's neighbourhood, and a node's abstraction chain.
 *
 * The original enumerates the node map in its key order; the selectors
 * that do so take that order as a parameter `order`.
 */
module Selectors {
  import opened Types
  import opened Lists
  import opened Merge
  import opened Store
  import EdgeLists

  /** `order` lists every key of `m` exactly once. */
  ghost predicate Enumerates<T>(order: seq<Id>, m: map<Id, T>) {
    NoDup(order) && forall k :: k in order <==> k in m
  }

  // ---------------------------------------------------------------------------
  // getL1Nodes

  /** The node itself, then its adjacency list, then its reverse adjacency list. */
  function L1Candidates(s: State, id: Id): seq<Id> {
    [id] + Get(s.adjacency, id).GetOr([]) + Get(s.reverseAdjacency, id).GetOr([])
  }

  /** The ids of `getL1Nodes`: the distinct candidates that are stored nodes, the node itself first when stored. */
  function L1NodeIds(s: State, id: Id): (r: seq<Id>)
    ensures NoDup(r)
    ensures forall x :: x in r <==>
      x in s.nodes && (x == id || x in Get(s.adjacency, id).GetOr([]) || x in Get(s.reverseAdjacency, id).GetOr([]))
    ensures id in s.nodes ==> r != [] && r[0] == id
  {
    var d := Dedup(L1Candidates(s, id));
    assert id in d;
    assert id in s.nodes ==> d[0] == id by {
      DedupHead(L1Candidates(s, id));
    }
    Select(d, s.nodes.Keys)
  }

  /** `getL1Nodes`: the records of the direct neighbours, the node itself included. */
  function L1Nodes(s: State, id: Id): (r: seq<Node>)
    ensures |r| == |L1NodeIds(s, id)|
    ensures forall i :: 0 <= i < |r| ==> r[i] == s.nodes[L1NodeIds(s, id)[i]]
  {
    var ids := L1NodeIds(s, id);
    seq(|ids|, i requires 0 <= i < |ids| => s.nodes[ids[i]])
  }

  lemma DedupHead<T(!new)>(s: seq<T>)
    requires s != []
    ensures Dedup(s) != [] && Dedup(s)[0] == s[0]
  {
    if |s| > 1 {
      DedupHead(s[..|s| - 1]);
      assert s[..|s| - 1][0] == s[0];
      assert Dedup(s)[..|Dedup(s[..|s| - 1])|] == Dedup(s[..|s| - 1]);
    } else {
      assert s[..0] == [];
    }
  }

  // ---------------------------------------------------------------------------
  // getEdgeIdsByNodeId, getEdgesForNodes

  /** Every edge id listed in `edgeListMap` has an edge record. */
  predicate ListedEdgesStored(s: State) {
    forall k :: k in s.edgeLists ==>
      (forall y :: y in s.edgeLists[k].from ==> y in s.edges) && (forall y :: y in s.edgeLists[k].to ==> y in s.edges)
  }

  /** `getEdgeIdsByNodeId`: the node's outgoing and incoming edge ids, as many as its two lists hold; none for a node without an entry. */
  function EdgeIdsByNode(s: State, id: Id): (r: seq<Id>)
    ensures id !in s.edgeLists ==> r == []
    ensures id in s.edgeLists ==> |r| == |s.edgeLists[id].from| + |s.edgeLists[id].to|
    ensures forall x :: x in r <==> id in s.edgeLists && (x in s.edgeLists[id].from || x in s.edgeLists[id].to)
  {
    if id !in s.edgeLists then [] else s.edgeLists[id].from + s.edgeLists[id].to
  }

  /** The edge ids of every node in `ids`, node by node. */
  function AllEdgeIds(s: State, ids: seq<Id>): seq<Id> {
    Flatten(seq(|ids|, i requires 0 <= i < |ids| => EdgeIdsByNode(s, ids[i])))
  }

  function IdsOf(es: seq<Edge>): (r: seq<Id>)
    ensures |r| == |es| && forall i :: 0 <= i < |es| ==> r[i] == es[i].id
  {
    seq(|es|, i requires 0 <= i < |es| => es[i].id)
  }

  /** `_.uniqBy('id')`: the first record of every id, in order. */
  function UniqById(es: seq<Edge>): (r: seq<Edge>)
    ensures forall e :: e in r ==> e in es
    ensures forall e :: e in es ==> e.id in IdsOf(r)
    ensures NoDup(IdsOf(r))
  {
    if es == [] then []
    else
      var d := UniqById(es[..|es| - 1]);
      var last := es[|es| - 1];
      assert forall e :: e in es ==> e in es[..|es| - 1] || e == last;
      if last.id in IdsOf(d) then d
      else
        assert IdsOf(d + [last]) == IdsOf(d) + [last.id];
        NoDupSnoc(IdsOf(d), last.id);
        d + [last]
  }

  /** The edges with both endpoints among `ids`, in order. */
  function BothIn(es: seq<Edge>, ids: seq<Id>): (r: seq<Edge>)
    ensures forall e :: e in r <==> e in es && e.start in ids && e.end in ids
  {
    if es == [] then []
    else (if es[0].start in ids && es[0].end in ids then [es[0]] else []) + BothIn(es[1..], ids)
  }

  /** No two edges share an id. */
  predicate DistinctIds(es: seq<Edge>) {
    forall i, j :: 0 <= i < j < |es| ==> es[i].id != es[j].id
  }

  lemma DistinctIdsNoDup(es: seq<Edge>)
    ensures DistinctIds(es) <==> NoDup(IdsOf(es))
  {
    if DistinctIds(es) {
      forall i, j | 0 <= i < j < |es| ensures IdsOf(es)[i] != IdsOf(es)[j] {
      }
    }
    if NoDup(IdsOf(es)) {
      forall i, j | 0 <= i < j < |es| ensures es[i].id != es[j].id {
        assert IdsOf(es)[i] != IdsOf(es)[j];
      }
    }
  }

  /** An edge whose id none of `rest` carries can go in front of `rest`. */
  lemma DistinctCons(x: Edge, rest: seq<Edge>)
    requires DistinctIds(rest)
    requires forall e :: e in rest ==> e.id != x.id
    ensures DistinctIds([x] + rest)
  {
    var r := [x] + rest;
    forall i, j | 0 <= i < j < |r| ensures r[i].id != r[j].id {
      assert r[j] == rest[j - 1];
      if i > 0 {
        assert r[i] == rest[i - 1];
      }
    }
  }

  /** Dropping the first edge keeps the ids distinct, and none of the others carries its id. */
  lemma DistinctTail(es: seq<Edge>)
    requires es != [] && DistinctIds(es)
    ensures DistinctIds(es[1..])
    ensures forall e :: e in es[1..] ==> e.id != es[0].id
  {
    var tail := es[1..];
    forall i, j | 0 <= i < j < |tail| ensures tail[i].id != tail[j].id {
      assert tail[i] == es[i + 1] && tail[j] == es[j + 1];
    }
    forall e | e in tail ensures e.id != es[0].id {
      var j :| 0 <= j < |tail| && tail[j] == e;
      assert es[j + 1] == e;
    }
  }

  /** Keeping some of the edges keeps their ids distinct. */
  lemma {:induction false} BothInDistinct(es: seq<Edge>, ids: seq<Id>)
    requires DistinctIds(es)
    ensures DistinctIds(BothIn(es, ids))
  {
    if es != [] {
      DistinctTail(es);
      BothInDistinct(es[1..], ids);
      if es[0].start in ids && es[0].end in ids {
        DistinctCons(es[0], BothIn(es[1..], ids));
      }
    }
  }

  /** `getEdgesForNodes`: the distinct edge ids of the nodes whose both endpoints are among the nodes. */
  function EdgesForNodes(s: State, ids: seq<Id>): Result<seq<Id>> {
    var records :- Lookup(s.edges, AllEdgeIds(s, ids));
    Ok(IdsOf(BothIn(UniqById(records), ids)))
  }

  /** An id is among the nodes' edge ids exactly when one of the nodes lists it. */
  lemma AllEdgeIdsMember(s: State, ids: seq<Id>, x: Id)
    ensures x in AllEdgeIds(s, ids) <==> exists i :: 0 <= i < |ids| && x in EdgeIdsByNode(s, ids[i])
  {
    var lists := seq(|ids|, i requires 0 <= i < |ids| => EdgeIdsByNode(s, ids[i]));
    FlattenMember(lists, x);
    if exists i :: 0 <= i < |ids| && x in EdgeIdsByNode(s, ids[i]) {
      var i :| 0 <= i < |ids| && x in EdgeIdsByNode(s, ids[i]);
      assert x in lists[i];
    }
  }

  /** The records looked up for `all`, position by position. */
  ghost predicate LookedUp(edges: map<Id, Edge>, all: seq<Id>, records: seq<Edge>) {
    |records| == |all| && forall i :: 0 <= i < |all| ==> all[i] in edges && records[i] == edges[all[i]]
  }

  /** A looked-up record is the stored record of its own id, and that id was asked for. */
  lemma LookedUpRecord(edges: map<Id, Edge>, all: seq<Id>, records: seq<Edge>, e: Edge)
    requires WellKeyed(edges, EdgeKey) && LookedUp(edges, all, records)
    requires e in records
    ensures e.id in all && e.id in edges && e == edges[e.id]
  {
    var i :| 0 <= i < |records| && records[i] == e;
    assert e == edges[all[i]];
  }

  /** The kept ids are the asked-for ids whose stored edge has both endpoints among `ids`. */
  lemma KeptMember(edges: map<Id, Edge>, all: seq<Id>, records: seq<Edge>, ids: seq<Id>, x: Id)
    requires WellKeyed(edges, EdgeKey) && LookedUp(edges, all, records)
    ensures x in IdsOf(BothIn(UniqById(records), ids)) <==>
      x in all && x in edges && edges[x].start in ids && edges[x].end in ids
  {
    if x in IdsOf(BothIn(UniqById(records), ids)) {
      KeptOnlyAsked(edges, all, records, ids, x);
    }
    if x in all && x in edges && edges[x].start in ids && edges[x].end in ids {
      KeptAllAsked(edges, all, records, ids, x);
    }
  }

  lemma KeptOnlyAsked(edges: map<Id, Edge>, all: seq<Id>, records: seq<Edge>, ids: seq<Id>, x: Id)
    requires WellKeyed(edges, EdgeKey) && LookedUp(edges, all, records)
    requires x in IdsOf(BothIn(UniqById(records), ids))
    ensures x in all && x in edges && edges[x].start in ids && edges[x].end in ids
  {
    var kept := BothIn(UniqById(records), ids);
    var i :| 0 <= i < |kept| && IdsOf(kept)[i] == x;
    assert kept[i] in UniqById(records);
    LookedUpRecord(edges, all, records, kept[i]);
  }

  lemma KeptAllAsked(edges: map<Id, Edge>, all: seq<Id>, records: seq<Edge>, ids: seq<Id>, x: Id)
    requires WellKeyed(edges, EdgeKey) && LookedUp(edges, all, records)
    requires x in all && x in edges && edges[x].start in ids && edges[x].end in ids
    ensures x in IdsOf(BothIn(UniqById(records), ids))
  {
    var uniq := UniqById(records);
    var kept := BothIn(uniq, ids);
    var i :| 0 <= i < |all| && all[i] == x;
    assert records[i] in records;
    assert x in IdsOf(uniq);
    var j :| 0 <= j < |uniq| && IdsOf(uniq)[j] == x;
    var e := uniq[j];
    LookedUpRecord(edges, all, records, e);
    assert e in kept;
    var k :| 0 <= k < |kept| && kept[k] == e;
    assert IdsOf(kept)[k] == x;
  }

  /**
   * `getEdgesForNodes` throws exactly when a listed edge id has no record;
   * otherwise it returns, each once, the ids of the nodes' edges whose both
   * endpoints are among the nodes.
   */
  lemma EdgesForNodesSpec(s: State, ids: seq<Id>, x: Id)
    requires WellKeyed(s.edges, EdgeKey)
    ensures var r := EdgesForNodes(s, ids);
      && (r.Ok? <==> forall y :: y in AllEdgeIds(s, ids) ==> y in s.edges)
      && (r.Ok? ==> NoDup(r.value))
      && (r.Ok? ==> (x in r.value <==>
            && (exists i :: 0 <= i < |ids| && x in EdgeIdsByNode(s, ids[i]))
            && x in s.edges && s.edges[x].start in ids && s.edges[x].end in ids))
  {
    AllEdgeIdsMember(s, ids, x);
    var all := AllEdgeIds(s, ids);
    var looked := Lookup(s.edges, all);
    if looked.Ok? {
      var records := looked.value;
      DistinctIdsNoDup(UniqById(records));
      BothInDistinct(UniqById(records), ids);
      DistinctIdsNoDup(BothIn(UniqById(records), ids));
      KeptMember(s.edges, all, records, ids, x);
    }
  }

  // ---------------------------------------------------------------------------
  // getNeighbouringNodesAndEdgesByCollectionId

  /**
   * Removing a self-loop deletes the edge record but leaves its id in the
   * node's `from` list, so the edge query over that node then fails on the
   * missing record.
   */
  lemma RemovedSelfLoopBreaksEdgeQuery(s: State, e: Id, n: Id)
    requires n in s.nodes && n in s.edgeLists && e in s.edgeLists[n].from
    ensures var r := RootReduce(s, Action(RemoveEdgeSuccess(e, n, n), NoEntities));
      && r.Ok?
      && e !in r.value.edges
      && EdgesForNodes(r.value, [n]).Err?
  {
    var a := Action(RemoveEdgeSuccess(e, n, n), NoEntities);
    EdgeLists.RemoveSelfLoopKeepsFrom(s.edgeLists, e, n);
    var t := RootReduce(s, a).value;
    assert e in EdgeIdsByNode(t, [n][0]);
    AllEdgeIdsMember(t, [n], e);
  }

  /** A collection's own id followed by its ancestor path (`collectionChain`, singular). */
  function ChainOf(c: Node): seq<Id> {
    [c.id] + c.collectionChain.GetOr([])
  }

  /** Some chain of the node holds every element of `cc`: `_.intersection(chain, cc).length === cc.length`. */
  predicate Covers(n: Node, cc: seq<Id>) {
    exists k :: 0 <= k < |n.collectionChains| && |Intersection(n.collectionChains[k], cc)| == |cc|
  }

  /** The ids of the nodes, in enumeration order, with a chain covering `cc`. */
  function NodesUnder(nodes: map<Id, Node>, order: seq<Id>, cc: seq<Id>): seq<Id>
    requires forall k :: k in order ==> k in nodes
  {
    if order == [] then []
    else
      var n := nodes[order[|order| - 1]];
      NodesUnder(nodes, order[..|order| - 1], cc) + (if Covers(n, cc) then [n.id] else [])
  }

  datatype Neighbourhood = Neighbourhood(nodes: seq<Id>, edges: seq<Id>)

  /** `getNeighbouringNodesAndEdgesByCollectionId`. */
  function Neighbouring(s: State, id: Id, order: seq<Id>): Result<Neighbourhood>
    requires Enumerates(order, s.nodes)
  {
    if id !in s.collections then Ok(Neighbourhood([], []))
    else
      var nodes := NodesUnder(s.nodes, order, ChainOf(s.collections[id]));
      var edges :- EdgesForNodes(s, nodes);
      Ok(Neighbourhood(nodes, edges))
  }

  /** Every id of `cc` occurs in `chain`. */
  predicate Holds(chain: Chain, cc: seq<Id>) {
    forall y :: y in cc ==> y in chain
  }

  /** Some chain of the node holds every id of `cc`. */
  predicate SomeChainHolds(n: Node, cc: seq<Id>) {
    exists k :: 0 <= k < |n.collectionChains| && Holds(n.collectionChains[k], cc)
  }

  /** A node covers `cc` exactly when `cc` has no repeated id and one of the node's chains holds all of `cc`. */
  lemma CoversIff(n: Node, cc: seq<Id>)
    ensures Covers(n, cc) <==> NoDup(cc) && SomeChainHolds(n, cc)
  {
    if Covers(n, cc) {
      var k :| 0 <= k < |n.collectionChains| && |Intersection(n.collectionChains[k], cc)| == |cc|;
      IntersectionCovers(n.collectionChains[k], cc);
      assert Holds(n.collectionChains[k], cc);
    }
    if NoDup(cc) && SomeChainHolds(n, cc) {
      var k :| 0 <= k < |n.collectionChains| && Holds(n.collectionChains[k], cc);
      IntersectionCovers(n.collectionChains[k], cc);
      assert |Intersection(n.collectionChains[k], cc)| == |cc|;
    }
  }

  lemma {:induction false} NodesUnderMember(nodes: map<Id, Node>, order: seq<Id>, cc: seq<Id>, x: Id)
    requires forall k :: k in order ==> k in nodes
    requires WellKeyed(nodes, NodeKey)
    ensures x in NodesUnder(nodes, order, cc) <==> x in order && Covers(nodes[x], cc)
  {
    if order != [] {
      var init := order[..|order| - 1];
      NodesUnderMember(nodes, init, cc, x);
      assert forall y :: y in order <==> y in init || y == order[|order| - 1];
    }
  }

  lemma {:induction false} NodesUnderNoDup(nodes: map<Id, Node>, order: seq<Id>, cc: seq<Id>)
    requires forall k :: k in order ==> k in nodes
    requires WellKeyed(nodes, NodeKey)
    requires NoDup(order)
    ensures NoDup(NodesUnder(nodes, order, cc))
  {
    if order != [] {
      var init, last := order[..|order| - 1], order[|order| - 1];
      assert NoDup(init) by {
        forall i, j | 0 <= i < j < |init| ensures init[i] != init[j] {
          assert init[i] == order[i] && init[j] == order[j];
        }
      }
      NodesUnderNoDup(nodes, init, cc);
      if Covers(nodes[last], cc) {
        NodesUnderMember(nodes, init, cc, last);
        assert last !in init by {
          forall i | 0 <= i < |init| ensures init[i] != last {
            assert init[i] == order[i];
          }
        }
        NoDupSnoc(NodesUnder(nodes, init, cc), last);
      }
    }
  }

  /**
   * The neighbourhood of a stored collection holds, each once, exactly the
   * stored nodes one of whose chains contains the collection and its whole
   * ancestor path (none at all if that path repeats an id); an unknown
   * collection has an empty neighbourhood.
   */
  lemma NeighbouringNodes(s: State, id: Id, order: seq<Id>, x: Id)
    requires Enumerates(order, s.nodes)
    requires WellKeyed(s.nodes, NodeKey)
    ensures var r := Neighbouring(s, id, order);
      && (id !in s.collections ==> r == Ok(Neighbourhood([], [])))
      && (r.Ok? ==> NoDup(r.value.nodes))
      && (r.Ok? && id in s.collections ==>
            var cc := ChainOf(s.collections[id]);
            (x in r.value.nodes <==> x in s.nodes && NoDup(cc) && SomeChainHolds(s.nodes[x], cc)))
  {
    if id in s.collections {
      var cc := ChainOf(s.collections[id]);
      NodesUnderIff(s.nodes, order, cc, x);
      NodesUnderNoDup(s.nodes, order, cc);
      var r := Neighbouring(s, id, order);
      if r.Ok? {
        assert r.value.nodes == NodesUnder(s.nodes, order, cc);
      }
    }
  }

  lemma NodesUnderIff(nodes: map<Id, Node>, order: seq<Id>, cc: seq<Id>, x: Id)
    requires Enumerates(order, nodes)
    requires WellKeyed(nodes, NodeKey)
    ensures x in NodesUnder(nodes, order, cc) <==> x in nodes && NoDup(cc) && SomeChainHolds(nodes[x], cc)
  {
    NodesUnderMember(nodes, order, cc, x);
    if x in nodes {
      CoversIff(nodes[x], cc);
    }
  }

  // ---------------------------------------------------------------------------
  // getAbstractionChain

  /**
   * `getAbstractionChain`: the collection record (or else the node record)
   * for the id, then its direct parents `collections`; no record gives
   * nothing, a record without `collections` throws when spread.
   */
  function AbstractionChain(s: State, id: Id): (r: Result<Option<seq<Id>>>)
    ensures r == Ok(None) <==> id !in s.collections && id !in s.nodes
    ensures r.Err? <==>
      (id in s.collections && s.collections[id].collections.None?) ||
      (id !in s.collections && id in s.nodes && s.nodes[id].collections.None?)
    ensures r.Ok? && r.value.Some? ==>
      var rec := if id in s.collections then s.collections[id] else s.nodes[id];
      r.value.value != [] && r.value.value[0] == rec.id && r.value.value[1..] == rec.collections.value
  {
    var record := if id in s.collections then Some(s.collections[id]) else Get(s.nodes, id);
    match record
    case None => Ok(None)
    case Some(n) =>
      if n.collections.None? then Err(MissingField("collections"))
      else Ok(Some([n.id] + n.collections.value))
  }

  /** The chain is read from the direct parents: a record with only its own ancestor path makes the selector throw. */
  lemma AbstractionChainIgnoresCollectionChain(s: State, id: Id)
    requires id in s.collections && s.collections[id].collections.None? && s.collections[id].collectionChain.Some?
    ensures AbstractionChain(s, id) == Err(MissingField("collections"))
  {
  }
}
