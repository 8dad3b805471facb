/**
 * The entity reducers `nodes`, `edges`, `collections` and `collectionEdges`.
 * Each is a pure function of the previous map and the action; `nodes` can
 * throw in the original (an update of a missing key, a field read on
 * `undefined`) and so returns a `Result`.
 */
module Entities {
  import opened Types
  import opened Lists
  import opened Merge

  /** Every chain with `cid` removed from it, chain order and element order kept. */
  function StripChains(chains: seq<Chain>, cid: Id): (r: seq<Chain>)
    ensures |r| == |chains|
    ensures forall i :: 0 <= i < |r| ==> r[i] == Without(chains[i], cid)
  {
    seq(|chains|, i requires 0 <= i < |chains| => Without(chains[i], cid))
  }

  /** Every chain equal to `from` becomes `to`; the others stay. */
  function RenameChain(chains: seq<Chain>, from: Chain, to: Chain): (r: seq<Chain>)
    ensures |r| == |chains|
    ensures forall i :: 0 <= i < |r| ==> r[i] == (if chains[i] == from then to else chains[i])
  {
    seq(|chains|, i requires 0 <= i < |chains| => if chains[i] == from then to else chains[i])
  }

  /** Every chain whose last element is `parent` becomes `to`; the others (the empty chain among them) stay. */
  function Retarget(chains: seq<Chain>, parent: Id, to: Chain): (r: seq<Chain>)
    ensures |r| == |chains|
    ensures forall i :: 0 <= i < |r| ==>
      r[i] == (if chains[i] != [] && chains[i][|chains[i]| - 1] == parent then to else chains[i])
  {
    seq(|chains|, i requires 0 <= i < |chains| =>
      if chains[i] != [] && chains[i][|chains[i]| - 1] == parent then to else chains[i])
  }

  /** REMOVE_COLLECTION_SUCCESS and REMOVE_ABSTRACTION_SUCCESS on `nodes`. */
  function RemoveCollectionFromNodes(state: map<Id, Node>, cid: Id): Result<map<Id, Node>> {
    if cid !in state then Err(MissingRecord(cid))
    else
      var retyped := state[cid := state[cid].(kind := NodeType)];
      Ok(map k: Id | k in retyped :: retyped[k].(collectionChains := StripChains(retyped[k].collectionChains, cid)))
  }

  /** MOVE_TO_ABSTRACTION_SUCCESS on `nodes`. */
  function MoveInNodes(state: map<Id, Node>, src: Id, srcCollection: Id, target: Id, chain: Chain): Result<map<Id, Node>> {
    if src !in state then Err(MissingRecord(src))
    else if state[src].kind == CollectionType && state[src].collections.None? then Err(MissingField("collections"))
    else
      var source := state[src];
      var moved :=
        if source.kind == CollectionType then
          var oldChain := [src] + source.collections.value;
          var newChain := [src, target] + source.collections.value;
          map k: Id | k in state :: state[k].(collectionChains := RenameChain(state[k].collectionChains, oldChain, newChain))
        else state;
      Ok(moved[src := moved[src].(collectionChains := Retarget(moved[src].collectionChains, srcCollection, chain))])
  }

  /** The `nodes` reducer. */
  function NodesReducer(state: map<Id, Node>, a: Action): Result<map<Id, Node>> {
    match a.event
    case RemoveNodeSuccess(n, _) => Ok(state - {n})
    case AddNodeToCollectionSuccess(n, _, chain) =>
      if n !in state then Err(MissingRecord(n))
      else Ok(state[n := state[n].(collectionChains := state[n].collectionChains + [chain])])
    case RemoveCollectionSuccess(c) => RemoveCollectionFromNodes(state, c)
    case RemoveAbstractionSuccess(c) => RemoveCollectionFromNodes(state, c)
    case RemoveNodeFromCollectionSuccess(n, c) =>
      if n !in state then Err(MissingRecord(n))
      else Ok(state[n := state[n].(collectionChains := StripChains(state[n].collectionChains, c))])
    case RemoveEdgeSuccess(e, s, t) =>
      if s !in state then Err(MissingRecord(s))
      else if t !in state then Err(MissingRecord(t))
      else
        Ok(state[s := state[s].(edges := Some(Without(state[s].edges.GetOr([]), e)))]
                [t := state[t].(edges := Some(Without(state[t].edges.GetOr([]), e)))])
    case ToggleCollapseCollection(id) =>
      if id !in state then Err(MissingRecord(id))
      else Ok(state[id := state[id].(collapsed := Some(!IsCollapsed(state[id])))])
    case MoveToAbstractionSuccess(src, srcCollection, target, chain, _) =>
      MoveInNodes(state, src, srcCollection, target, chain)
    case ConvertNodeToCollectionSuccess(id) =>
      if a.entities.nodes.None? then Err(MissingField("nodes"))
      else
        (match Absorb(Get(state, id), ForKey(a.entities.nodes.value, NodeKey, id), Overlay)
         case None => Err(MissingRecord(id))
         case Some(r) => Ok(state[id := r.(collapsed := Some(true))]))
    case _ =>
      if a.entities.nodes.Some? then Ok(MergeAll(state, a.entities.nodes.value, NodeKey, Overlay)) else Ok(state)
  }

  /** The `edges` reducer; REMOVE_NODE_SUCCESS deliberately leaves incident edges in place. */
  function EdgesReducer(state: map<Id, Edge>, a: Action): map<Id, Edge> {
    match a.event
    case RemoveNodeSuccess(_, _) => state
    case RemoveEdgeSuccess(e, _, _) => state - {e}
    case _ =>
      if a.entities.edges.Some? then MergeAll(state, a.entities.edges.value, EdgeKey, ReplaceEdge) else state
  }

  /** The `collections` reducer. */
  function CollectionsReducer(state: map<Id, Node>, a: Action): map<Id, Node> {
    match a.event
    case RemoveCollectionSuccess(c) => state - {c}
    case RemoveAbstractionSuccess(c) => state - {c}
    case _ =>
      if a.entities.collections.Some? then MergeAll(state, a.entities.collections.value, NodeKey, Overlay) else state
  }

  /**
   * The `collectionEdges` reducer. On REMOVE_COLLECTION_SUCCESS the original
   * returns the filtered records as an array; here the map keeps the keys of
   * the records it keeps.
   */
  function CollectionEdgesReducer(state: map<Id, CollectionEdge>, a: Action): map<Id, CollectionEdge> {
    match a.event
    case RemoveCollectionSuccess(c) => map k: Id | k in state && state[k].start != c && state[k].end != c :: state[k]
    case RemoveCollectionEdgeSuccess(e) => state - {e}
    case _ =>
      if a.entities.collectionEdges.Some? then
        MergeAll(state, a.entities.collectionEdges.value, CollectionEdgeKey, ReplaceCollectionEdge)
      else state
  }

  // ---------------------------------------------------------------------------
  // Properties

  /** Toggling negates `collapsed` of that one node and changes nothing else; a missing node is an error. */
  lemma ToggleCollapseEffect(state: map<Id, Node>, id: Id)
    ensures var r := NodesReducer(state, Action(ToggleCollapseCollection(id), NoEntities));
      && (id !in state <==> r.Err?)
      && (r.Ok? ==>
            && r.value.Keys == state.Keys
            && r.value[id] == state[id].(collapsed := Some(!IsCollapsed(state[id])))
            && forall k :: k in state && k != id ==> r.value[k] == state[k])
  {
  }

  /** Toggling twice restores the store when `collapsed` was set; when it was unset it ends as `false`. */
  lemma ToggleTwice(state: map<Id, Node>, id: Id)
    requires id in state
    ensures var once := NodesReducer(state, Action(ToggleCollapseCollection(id), NoEntities));
      && once.Ok?
      && var twice := NodesReducer(once.value, Action(ToggleCollapseCollection(id), NoEntities));
      && twice.Ok?
      && (state[id].collapsed.Some? ==> twice.value == state)
      && (state[id].collapsed.None? ==> twice.value == state[id := state[id].(collapsed := Some(false))])
  {
    var once := NodesReducer(state, Action(ToggleCollapseCollection(id), NoEntities)).value;
    var twice := NodesReducer(once, Action(ToggleCollapseCollection(id), NoEntities)).value;
    var n := state[id];
    assert once[id] == n.(collapsed := Some(!IsCollapsed(n)));
    assert twice[id] == n.(collapsed := Some(!IsCollapsed(once[id])));
    if n.collapsed.Some? {
      assert twice[id] == n by {
        if n.collapsed.value {
          assert once[id].collapsed == Some(false);
        } else {
          assert once[id].collapsed == Some(true);
        }
      }
      assert twice == state;
    }
  }

  /** A converted node always ends up collapsed and keeps its id. */
  lemma ConvertCollapses(state: map<Id, Node>, a: Action)
    requires a.event.ConvertNodeToCollectionSuccess?
    requires WellKeyed(state, NodeKey)
    ensures var r := NodesReducer(state, a);
      r.Ok? ==> a.event.id in r.value && r.value[a.event.id].collapsed == Some(true) && r.value[a.event.id].id == a.event.id
  {
    var id := a.event.id;
    if a.entities.nodes.Some? {
      AbsorbKeepsKey(Get(state, id), ForKey(a.entities.nodes.value, NodeKey, id), id);
    }
  }

  /** Overlaying records that all carry id `k` on a record with id `k` (or on nothing) yields a record with id `k`. */
  lemma {:induction false} AbsorbKeepsKey(current: Option<Node>, rs: seq<Node>, k: Id)
    requires current.Some? ==> current.value.id == k
    requires forall x :: x in rs ==> x.id == k
    ensures var r := Absorb(current, rs, Overlay); r.Some? ==> r.value.id == k
  {
    if rs != [] {
      AbsorbKeepsKey(current, rs[..|rs| - 1], k);
      assert rs[|rs| - 1] in rs;
    }
  }

  /**
   * Removing a collection turns that record into a plain node, strips its id
   * from every chain of every node, and changes nothing else.
   */
  lemma RemoveCollectionEffect(state: map<Id, Node>, cid: Id)
    requires cid in state
    ensures var r := NodesReducer(state, Action(RemoveCollectionSuccess(cid), NoEntities));
      && r.Ok?
      && r.value.Keys == state.Keys
      && r.value[cid].kind == NodeType
      && (forall k :: k in state && k != cid ==> r.value[k].kind == state[k].kind)
      && (forall k :: k in state ==>
            r.value[k] == state[k].(kind := r.value[k].kind, collectionChains := StripChains(state[k].collectionChains, cid)))
      && (forall k, i :: k in r.value && 0 <= i < |r.value[k].collectionChains| ==> cid !in r.value[k].collectionChains[i])
  {
  }

  /** Without a failure, a missing collection makes the removal throw. */
  lemma RemoveMissingCollectionThrows(state: map<Id, Node>, cid: Id)
    requires cid !in state
    ensures NodesReducer(state, Action(RemoveCollectionSuccess(cid), NoEntities)) == Err(MissingRecord(cid))
  {
  }

  /**
   * Moving a node: the source must exist, and a collection source must carry
   * `collections`. Every record keeps its fields and its number of chains.
   * For a collection source every chain `[src, ...parents]` of every record
   * becomes `[src, target, ...parents]`; then the source's chains that end in
   * `srcCollection` become the action's chain.
   */
  lemma MoveEffect(state: map<Id, Node>, src: Id, srcCollection: Id, target: Id, chain: Chain, sourceNode: Node)
    ensures var r := NodesReducer(state, Action(MoveToAbstractionSuccess(src, srcCollection, target, chain, sourceNode), NoEntities));
      && (r.Ok? <==> src in state && (state[src].kind == CollectionType ==> state[src].collections.Some?))
      && (r.Ok? ==>
            && r.value.Keys == state.Keys
            && (forall k :: k in state ==>
                  && |r.value[k].collectionChains| == |state[k].collectionChains|
                  && r.value[k] == state[k].(collectionChains := r.value[k].collectionChains))
            && (forall k, i :: k in state && 0 <= i < |state[k].collectionChains| ==>
                  var before := state[k].collectionChains[i];
                  var renamed :=
                    if state[src].kind == CollectionType && before == [src] + state[src].collections.value
                    then [src, target] + state[src].collections.value
                    else before;
                  r.value[k].collectionChains[i] ==
                    (if k == src && renamed != [] && renamed[|renamed| - 1] == srcCollection then chain else renamed))
            && (forall k :: k in state && k != src && state[src].kind != CollectionType ==> r.value[k] == state[k]))
  {
    var r := NodesReducer(state, Action(MoveToAbstractionSuccess(src, srcCollection, target, chain, sourceNode), NoEntities));
    assert r == MoveInNodes(state, src, srcCollection, target, chain);
    if r.Ok? {
      var m := r.value;
      forall k | k in state
        ensures k in m && |m[k].collectionChains| == |state[k].collectionChains|
        ensures m[k] == state[k].(collectionChains := m[k].collectionChains)
        ensures k != src && state[src].kind != CollectionType ==> m[k] == state[k]
      {
        MoveRecordAt(state, src, srcCollection, target, chain, k);
      }
      forall k, i | k in state && 0 <= i < |state[k].collectionChains|
        ensures var before := state[k].collectionChains[i];
          var renamed :=
            if state[src].kind == CollectionType && before == [src] + state[src].collections.value
            then [src, target] + state[src].collections.value
            else before;
          m[k].collectionChains[i] ==
            (if k == src && renamed != [] && renamed[|renamed| - 1] == srcCollection then chain else renamed)
      {
        MoveChainAt(state, src, srcCollection, target, chain, k, i);
      }
    }
  }

  /** The chains of every record after the renaming step of a move from a collection source. */
  function MovedChains(state: map<Id, Node>, src: Id, target: Id, k: Id): seq<Chain>
    requires src in state && k in state && (state[src].kind == CollectionType ==> state[src].collections.Some?)
  {
    if state[src].kind == CollectionType then
      RenameChain(state[k].collectionChains, [src] + state[src].collections.value, [src, target] + state[src].collections.value)
    else state[k].collectionChains
  }

  /** A successful move gives record `k` new chains, as many as before, and nothing else new. */
  lemma MoveRecordAt(state: map<Id, Node>, src: Id, srcCollection: Id, target: Id, chain: Chain, k: Id)
    requires src in state && k in state && (state[src].kind == CollectionType ==> state[src].collections.Some?)
    ensures var m := MoveInNodes(state, src, srcCollection, target, chain);
      && m.Ok? && m.value.Keys == state.Keys
      && m.value[k].collectionChains ==
           (if k == src then Retarget(MovedChains(state, src, target, k), srcCollection, chain) else MovedChains(state, src, target, k))
      && |m.value[k].collectionChains| == |state[k].collectionChains|
      && m.value[k] == state[k].(collectionChains := m.value[k].collectionChains)
  {
  }

  /** Chain `i` of record `k` after a successful move. */
  lemma MoveChainAt(state: map<Id, Node>, src: Id, srcCollection: Id, target: Id, chain: Chain, k: Id, i: nat)
    requires src in state && k in state && (state[src].kind == CollectionType ==> state[src].collections.Some?)
    requires i < |state[k].collectionChains|
    ensures var m := MoveInNodes(state, src, srcCollection, target, chain).value;
      var before := state[k].collectionChains[i];
      var renamed :=
        if state[src].kind == CollectionType && before == [src] + state[src].collections.value
        then [src, target] + state[src].collections.value
        else before;
      m[k].collectionChains[i] ==
        (if k == src && renamed != [] && renamed[|renamed| - 1] == srcCollection then chain else renamed)
  {
    MoveRecordAt(state, src, srcCollection, target, chain, k);
    var moved := MovedChains(state, src, target, k);
    assert |moved| == |state[k].collectionChains|;
  }

  /** The `nodes` reducer keeps each record under its own id. */
  lemma NodesKeepKeys(nodes: map<Id, Node>, a: Action)
    requires WellKeyed(nodes, NodeKey)
    ensures var r := NodesReducer(nodes, a); r.Ok? ==> WellKeyed(r.value, NodeKey)
  {
    match a.event
    case ConvertNodeToCollectionSuccess(id) => ConvertCollapses(nodes, a);
    case RemoveCollectionSuccess(c) => RemoveCollectionKeepsKeys(nodes, c);
    case RemoveAbstractionSuccess(c) => RemoveCollectionKeepsKeys(nodes, c);
    case MoveToAbstractionSuccess(src, sc, t, chain, _) => MoveKeepsKeys(nodes, src, sc, t, chain);
    case RemoveEdgeSuccess(_, _, _) => EditKeepsKeys(nodes, a);
    case RemoveNodeSuccess(_, _) => EditKeepsKeys(nodes, a);
    case AddNodeToCollectionSuccess(_, _, _) => EditKeepsKeys(nodes, a);
    case RemoveNodeFromCollectionSuccess(_, _) => EditKeepsKeys(nodes, a);
    case ToggleCollapseCollection(_) => EditKeepsKeys(nodes, a);
    case _ => FetchKeepsKeys(nodes, a);
  }

  /** A merge of fetched records keeps each record under its own id. */
  lemma FetchKeepsKeys(nodes: map<Id, Node>, a: Action)
    requires WellKeyed(nodes, NodeKey)
    requires NodesReducer(nodes, a) == Ok(if a.entities.nodes.Some? then MergeAll(nodes, a.entities.nodes.value, NodeKey, Overlay) else nodes)
    ensures var r := NodesReducer(nodes, a); r.Ok? ==> WellKeyed(r.value, NodeKey)
  {
    if a.entities.nodes.Some? {
      MergeKeepsShape(nodes, a.entities.nodes.value, NodeKey, Overlay);
    }
  }

  /** The actions that edit stored records in place keep each record under its own id. */
  lemma EditKeepsKeys(nodes: map<Id, Node>, a: Action)
    requires WellKeyed(nodes, NodeKey)
    requires || a.event.RemoveEdgeSuccess? || a.event.RemoveNodeSuccess? || a.event.AddNodeToCollectionSuccess?
             || a.event.RemoveNodeFromCollectionSuccess? || a.event.ToggleCollapseCollection?
    ensures var r := NodesReducer(nodes, a); r.Ok? ==> WellKeyed(r.value, NodeKey)
  {
    var r := NodesReducer(nodes, a);
    if r.Ok? {
      forall k | k in r.value ensures r.value[k].id == k {
        assert k in nodes;
      }
    }
  }

  lemma RemoveCollectionKeepsKeys(nodes: map<Id, Node>, c: Id)
    requires WellKeyed(nodes, NodeKey)
    ensures var r := RemoveCollectionFromNodes(nodes, c); r.Ok? ==> WellKeyed(r.value, NodeKey)
  {
    var r := RemoveCollectionFromNodes(nodes, c);
    if r.Ok? {
      forall k | k in r.value ensures r.value[k].id == k {
      }
    }
  }

  lemma MoveKeepsKeys(nodes: map<Id, Node>, src: Id, sc: Id, t: Id, chain: Chain)
    requires WellKeyed(nodes, NodeKey)
    ensures var r := MoveInNodes(nodes, src, sc, t, chain); r.Ok? ==> WellKeyed(r.value, NodeKey)
  {
    var r := MoveInNodes(nodes, src, sc, t, chain);
    if r.Ok? {
      forall k | k in r.value ensures r.value[k].id == k {
      }
    }
  }

  /** The `edges` and `collections` reducers keep each record under its own id. */
  lemma EdgesAndCollectionsKeepKeys(edges: map<Id, Edge>, collections: map<Id, Node>, a: Action)
    requires WellKeyed(edges, EdgeKey) && WellKeyed(collections, NodeKey)
    ensures WellKeyed(EdgesReducer(edges, a), EdgeKey)
    ensures WellKeyed(CollectionsReducer(collections, a), NodeKey)
  {
    if a.entities.edges.Some? {
      MergeKeepsShape(edges, a.entities.edges.value, EdgeKey, ReplaceEdge);
    }
    if a.entities.collections.Some? {
      MergeKeepsShape(collections, a.entities.collections.value, NodeKey, Overlay);
    }
  }

  /** Applying the same fetched payload twice leaves the entity maps as applying it once. */
  lemma FetchTwice(nodes: map<Id, Node>, edges: map<Id, Edge>, collections: map<Id, Node>, es: Entities)
    ensures var a := Action(OtherSuccess, es);
      && NodesReducer(nodes, a).Ok?
      && NodesReducer(NodesReducer(nodes, a).value, a) == NodesReducer(nodes, a)
      && EdgesReducer(EdgesReducer(edges, a), a) == EdgesReducer(edges, a)
      && CollectionsReducer(CollectionsReducer(collections, a), a) == CollectionsReducer(collections, a)
  {
    NodeOverlayLawful();
    EdgeReplaceLawful();
    if es.nodes.Some? {
      MergeIdempotent(nodes, es.nodes.value, NodeKey, Overlay);
    }
    if es.edges.Some? {
      MergeIdempotent(edges, es.edges.value, EdgeKey, ReplaceEdge);
    }
    if es.collections.Some? {
      MergeIdempotent(collections, es.collections.value, NodeKey, Overlay);
    }
  }
}
