/**
 * The root reducer: the modelled slices of the store, each updated by its
 * own reducer from the same action. A reducer that throws makes the whole
 * dispatch throw; the slices are computed in the order the root reducer
 * lists them, so the first failing one names the fault. The `errors`
 * reducer, listed last, is not modelled as a slice, but its one effect on
 * the store is: on every `*_FAILURE` action it spreads the function
 * `errors` itself into an array, which throws, so a failure never reaches
 * the store.
 */
module Store {
  import opened Types
  import opened Entities
  import Adjacency
  import EdgeLists
  import opened Paths
  import opened Membership
  import opened Tracking

  datatype State = State(
    nodes: map<Id, Node>,
    edges: map<Id, Edge>,
    collections: map<Id, Node>,
    collectionEdges: map<Id, CollectionEdge>,
    adjacency: map<Id, seq<Id>>,
    reverseAdjacency: map<Id, seq<Id>>,
    edgeLists: map<Id, EdgeList>,
    pathL1: map<Id, Path>,
    pathL2: map<Id, Path>,
    byCollection: map<Id, seq<Id>>,
    detail: map<Id, Detail>,
    inbox: seq<Id>,
    batch: seq<Id>,
    synced: int)

  /** The store before any action: every map and list empty, nothing in flight. */
  const Initial: State := State(map[], map[], map[], map[], map[], map[], map[], map[], map[], map[], map[], [], [], 0)

  /** One dispatch of the root reducer. */
  function RootReduce(s: State, a: Action): Result<State> {
    var nodes :- NodesReducer(s.nodes, a);
    var edgeLists :- EdgeLists.Reduce(s.edgeLists, a);
    var detail :- DetailReduce(s.detail, a);
    if PhaseOf(a.event) == Failure then Err(NotIterable("errors"))
    else
      Ok(State(
        nodes,
        EdgesReducer(s.edges, a),
        CollectionsReducer(s.collections, a),
        CollectionEdgesReducer(s.collectionEdges, a),
        Adjacency.Reduce(s.adjacency, a, Adjacency.Outgoing),
        Adjacency.Reduce(s.reverseAdjacency, a, Adjacency.Incoming),
        edgeLists,
        L1Reduce(s.pathL1, a),
        L2Reduce(s.pathL2, a),
        ByCollectionReduce(s.byCollection, a),
        detail,
        InboxReduce(s.inbox, a),
        BatchReduce(s.batch, a),
        SyncedReduce(s.synced, a)))
  }

  /** The root reducer as the original runs it, with the index reducers' loops. */
  method RootReducer(s: State, a: Action) returns (r: Result<State>)
    ensures r == RootReduce(s, a)
  {
    var nodes := NodesReducer(s.nodes, a);
    if nodes.Err? {
      return Err(nodes.fault);
    }
    var adjacency := Adjacency.Reducer(s.adjacency, a, Adjacency.Outgoing);
    var reverseAdjacency := Adjacency.Reducer(s.reverseAdjacency, a, Adjacency.Incoming);
    var edgeLists := EdgeLists.Reducer(s.edgeLists, a);
    if edgeLists.Err? {
      return Err(edgeLists.fault);
    }
    var byCollection := ByCollectionReducer(s.byCollection, a);
    var detail := DetailReduce(s.detail, a);
    if detail.Err? {
      return Err(detail.fault);
    }
    if PhaseOf(a.event) == Failure {
      return Err(NotIterable("errors"));
    }
    r := Ok(State(
      nodes.value,
      EdgesReducer(s.edges, a),
      CollectionsReducer(s.collections, a),
      CollectionEdgesReducer(s.collectionEdges, a),
      adjacency,
      reverseAdjacency,
      edgeLists.value,
      L1Reduce(s.pathL1, a),
      L2Reduce(s.pathL2, a),
      byCollection,
      detail.value,
      InboxReduce(s.inbox, a),
      BatchReduce(s.batch, a),
      SyncedReduce(s.synced, a)));
  }

  // ---------------------------------------------------------------------------
  // Properties

  /**
   * Removing a node succeeds unless it names a collection with no detail
   * entry. It then deletes the node's key from the node map and from every
   * per-node index, keeps every other key's value, and returns the edge map
   * and `nodesByCollectionId` unchanged: incident edges and the node's
   * membership lists survive the removal.
   */
  lemma RemoveNodeEffect(s: State, n: Id, c: Option<Id>)
    ensures var r := RootReduce(s, Action(RemoveNodeSuccess(n, c), NoEntities));
      && (r.Ok? <==> c.None? || c.value in s.detail)
      && (r.Ok? ==>
            var t := r.value;
            && t.nodes == s.nodes - {n}
            && t.adjacency == s.adjacency - {n}
            && t.reverseAdjacency == s.reverseAdjacency - {n}
            && t.edgeLists == s.edgeLists - {n}
            && t.pathL1 == s.pathL1 - {n}
            && t.pathL2 == s.pathL2 - {n}
            && n !in t.nodes && n !in t.adjacency && n !in t.reverseAdjacency
            && n !in t.edgeLists && n !in t.pathL1 && n !in t.pathL2
            && t.edges == s.edges
            && t.byCollection == s.byCollection
            && n !in t.inbox && n !in t.batch)
  {
    var a := Action(RemoveNodeSuccess(n, c), NoEntities);
    Tracking.RemoveNodeEffect(s.inbox, s.batch, n, c);
  }

  /**
   * Removing a collection that is stored as a node turns it into a plain
   * node, strips it from every chain, and drops its key from the collection
   * map and both membership indices.
   */
  lemma RemoveCollectionEffect(s: State, cid: Id)
    requires cid in s.nodes
    ensures var r := RootReduce(s, Action(RemoveCollectionSuccess(cid), NoEntities));
      && r.Ok?
      && r.value.nodes[cid].kind == NodeType
      && (forall k, i :: k in r.value.nodes && 0 <= i < |r.value.nodes[k].collectionChains| ==>
            cid !in r.value.nodes[k].collectionChains[i])
      && cid !in r.value.collections && cid !in r.value.byCollection && cid !in r.value.detail
      && (forall e :: e in r.value.collectionEdges ==> r.value.collectionEdges[e].start != cid && r.value.collectionEdges[e].end != cid)
  {
    Entities.RemoveCollectionEffect(s.nodes, cid);
  }

  /** Toggling a collapsed or expanded collection twice restores the whole store. */
  lemma ToggleTwice(s: State, id: Id)
    requires id in s.nodes && s.nodes[id].collapsed.Some?
    ensures var a := Action(ToggleCollapseCollection(id), NoEntities);
      var once := RootReduce(s, a);
      && once.Ok?
      && var twice := RootReduce(once.value, a);
      && twice == Ok(s)
  {
    var a := Action(ToggleCollapseCollection(id), NoEntities);
    Entities.ToggleTwice(s.nodes, id);
    var once := RootReduce(s, a).value;
    assert once.adjacency == s.adjacency;
    assert once.edgeLists == s.edgeLists;
  }

  /**
   * A failure never reaches the store: a `*_FAILURE` action throws, with the
   * `errors` spread as the fault unless an earlier reducer threw first. A
   * dispatch that succeeds was no failure and moves `synced` as its reducer
   * does.
   */
  lemma FailureThrows(s: State, a: Action)
    ensures PhaseOf(a.event) == Failure ==> RootReduce(s, a).Err?
    ensures RootReduce(s, a) == Err(NotIterable("errors")) <==>
      && PhaseOf(a.event) == Failure
      && NodesReducer(s.nodes, a).Ok? && EdgeLists.Reduce(s.edgeLists, a).Ok? && DetailReduce(s.detail, a).Ok?
    ensures RootReduce(s, a).Ok? ==> PhaseOf(a.event) != Failure && RootReduce(s, a).value.synced == SyncedReduce(s.synced, a)
  {
  }

  /** The store after a sequence of dispatches; the first that throws ends the run. */
  function Run(s: State, actions: seq<Action>): Result<State> {
    if actions == [] then Ok(s)
    else
      var prev :- Run(s, actions[..|actions| - 1]);
      RootReduce(prev, actions[|actions| - 1])
  }

  /**
   * Along a run of dispatches that all succeed there was no failure, and the
   * store's counter moved by the requests minus the successes.
   */
  lemma {:induction false} RunSynced(s: State, actions: seq<Action>)
    ensures var r := Run(s, actions);
      r.Ok? ==>
        && CountPhase(actions, Failure) == 0
        && r.value.synced == s.synced + CountPhase(actions, Request) - CountPhase(actions, Success)
  {
    if actions != [] {
      var init := actions[..|actions| - 1];
      RunSynced(s, init);
      var prev := Run(s, init);
      if prev.Ok? {
        FailureThrows(prev.value, actions[|actions| - 1]);
      }
    }
  }

  /**
   * From the initial store, a run whose every dispatch succeeded is synced
   * exactly when every request has been answered by a success.
   */
  lemma SyncedWhenAnswered(actions: seq<Action>)
    requires Run(Initial, actions).Ok?
    ensures IsSynced(Run(Initial, actions).value.synced) <==>
      CountPhase(actions, Request) == CountPhase(actions, Success)
  {
    RunSynced(Initial, actions);
  }

  /** An action the store does not react to changes only the request counter. */
  lemma UnrelatedActionKeepsStore(s: State)
    ensures RootReduce(s, Action(OtherRequest, NoEntities)) == Ok(s.(synced := s.synced + 1))
  {
    var a := Action(OtherRequest, NoEntities);
    assert EdgeLists.Reduce(s.edgeLists, a) == Ok(s.edgeLists);
  }
}
