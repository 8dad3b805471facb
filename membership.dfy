/**
 * The membership reducers: `nodesByCollectionId`, rebuilt from the fetched
 * nodes' ancestor chains on every collection fetch, and `abstractionDetail`,
 * the member list each fetched collection carried, kept up to date by
 * additions and removals.
 */
module Membership {
  import opened Types
  import opened Lists
  import opened Merge

  // ---------------------------------------------------------------------------
  // nodesByCollectionId

  /** `newState[c]` created as `[id]` or pushed onto. */
  function Push(m: map<Id, seq<Id>>, c: Id, id: Id): map<Id, seq<Id>> {
    m[c := (if c in m then m[c] else []) + [id]]
  }

  /** One node's id pushed onto the list of each collection in `cs`, in order. */
  function AddTo(m: map<Id, seq<Id>>, id: Id, cs: seq<Id>): map<Id, seq<Id>> {
    if cs == [] then m else Push(AddTo(m, id, cs[..|cs| - 1]), cs[|cs| - 1], id)
  }

  /** The collections a node sits in, each once: `_.uniq(_.flatten(node.collectionChains))`. */
  function Ancestors(n: Node): seq<Id> {
    Dedup(Flatten(n.collectionChains))
  }

  /** The index built from the fetched nodes, in order. */
  function Index(nodes: seq<Node>): map<Id, seq<Id>> {
    if nodes == [] then map[]
    else
      var n := nodes[|nodes| - 1];
      AddTo(Index(nodes[..|nodes| - 1]), n.id, Ancestors(n))
  }

  /** The ids of the fetched nodes that sit in collection `c`, in fetch order: the reference for `Index`. */
  function Members(nodes: seq<Node>, c: Id): seq<Id> {
    if nodes == [] then []
    else
      var n := nodes[|nodes| - 1];
      Members(nodes[..|nodes| - 1], c) + (if c in Flatten(n.collectionChains) then [n.id] else [])
  }

  /** GET_COLLECTION_SUCCESS: the index rebuilt from scratch by the nested loops of the original. */
  method IndexMembers(nodes: seq<Node>) returns (m: map<Id, seq<Id>>)
    ensures m == Index(nodes)
  {
    m := map[];
    var i := 0;
    while i < |nodes|
      invariant 0 <= i <= |nodes|
      invariant m == Index(nodes[..i])
    {
      var node := nodes[i];
      var cs := Ancestors(node);
      ghost var m0 := m;
      var j := 0;
      while j < |cs|
        invariant 0 <= j <= |cs|
        invariant m == AddTo(m0, node.id, cs[..j])
      {
        var c := cs[j];
        assert cs[..j + 1][..j] == cs[..j];
        if c !in m {
          assert [] + [node.id] == [node.id];
          m := m[c := [node.id]];
        } else {
          m := m[c := m[c] + [node.id]];
        }
        j := j + 1;
      }
      assert cs[..j] == cs;
      assert nodes[..i + 1][..i] == nodes[..i];
      i := i + 1;
    }
    assert nodes[..i] == nodes;
  }

  /**
   * MOVE_TO_ABSTRACTION_SUCCESS: the target's list (empty if missing),
   * united with the source's list when the source is a collection, then the
   * source id pushed. `_.union` skips a missing source list.
   */
  function MoveMembers(state: map<Id, seq<Id>>, src: Id, target: Id, sourceNode: Node): map<Id, seq<Id>> {
    var base := Get(state, target).GetOr([]);
    var united := if sourceNode.kind == CollectionType then Union(base, Get(state, src).GetOr([])) else base;
    state[target := united + [src]]
  }

  /** The pure `nodesByCollectionId` reducer: what the method `ByCollectionReducer` computes. */
  function ByCollectionReduce(state: map<Id, seq<Id>>, a: Action): map<Id, seq<Id>> {
    match a.event
    case GetCollectionSuccess(_) => if a.entities.nodes.Some? then Index(a.entities.nodes.value) else map[]
    case RemoveCollectionSuccess(c) => state - {c}
    case RemoveAbstractionSuccess(c) => state - {c}
    case MoveToAbstractionSuccess(src, _, target, _, sourceNode) => MoveMembers(state, src, target, sourceNode)
    case _ => state
  }

  /** The `nodesByCollectionId` reducer as the original runs it. */
  method ByCollectionReducer(state: map<Id, seq<Id>>, a: Action) returns (r: map<Id, seq<Id>>)
    ensures r == ByCollectionReduce(state, a)
  {
    if a.event.GetCollectionSuccess? {
      if a.entities.nodes.Some? {
        r := IndexMembers(a.entities.nodes.value);
      } else {
        r := map[];
      }
    } else {
      r := ByCollectionReduce(state, a);
    }
  }

  // ---------------------------------------------------------------------------
  // abstractionDetail

  /** GET_COLLECTION_SUCCESS: the fetched collection's member list, read from the response's collections. */
  function DetailFetched(state: map<Id, Detail>, c: Id, es: Entities): Result<map<Id, Detail>> {
    if es.collections.None? then Err(MissingField("collections"))
    else
      match Absorb(None, ForKey(es.collections.value, NodeKey, c), Overlay)
      case None => Err(MissingRecord(c))
      case Some(record) => Ok(state[c := Detail(record.nodes)])
  }

  /** ADD_NODE_TO_COLLECTION_SUCCESS: push onto an existing member list; a missing entry or list throws. */
  function DetailAdd(state: map<Id, Detail>, n: Id, c: Id): Result<map<Id, Detail>> {
    if c !in state then Err(MissingRecord(c))
    else if state[c].nodes.None? then Err(MissingField("nodes"))
    else Ok(state[c := Detail(Some(state[c].nodes.value + [n]))])
  }

  /** Removal from a collection: every occurrence of the node leaves the list (a missing list counts as empty); a missing entry throws. */
  function DetailRemove(state: map<Id, Detail>, n: Id, c: Option<Id>): Result<map<Id, Detail>> {
    match c
    case None => Ok(state)
    case Some(cid) =>
      if cid !in state then Err(MissingRecord(cid))
      else Ok(state[cid := Detail(Some(Without(state[cid].nodes.GetOr([]), n)))])
  }

  /** The `abstractionDetail` reducer. REMOVE_ABSTRACTION_SUCCESS is not handled by it. */
  function DetailReduce(state: map<Id, Detail>, a: Action): Result<map<Id, Detail>> {
    match a.event
    case GetCollectionSuccess(c) => DetailFetched(state, c, a.entities)
    case RemoveCollectionSuccess(c) => Ok(state - {c})
    case AddNodeToCollectionSuccess(n, c, _) => DetailAdd(state, n, c)
    case RemoveNodeFromCollectionSuccess(n, c) => DetailRemove(state, n, Some(c))
    case RemoveNodeSuccess(n, c) => DetailRemove(state, n, c)
    case _ => Ok(state)
  }

  // ---------------------------------------------------------------------------
  // Properties

  /** Pushing a node's distinct collections: each of them gets the id once at the end, the other lists stay. */
  lemma {:induction false} AddToAt(m: map<Id, seq<Id>>, id: Id, cs: seq<Id>)
    requires NoDup(cs)
    ensures AddTo(m, id, cs).Keys == m.Keys + Elems(cs)
    ensures forall c :: c in AddTo(m, id, cs) ==>
      AddTo(m, id, cs)[c] == Get(m, c).GetOr([]) + (if c in cs then [id] else [])
  {
    if cs != [] {
      var init, last := cs[..|cs| - 1], cs[|cs| - 1];
      NoDupInit(cs);
      AddToAt(m, id, init);
      assert forall c :: c in cs <==> c in init || c == last by {
        assert cs == init + [last];
      }
      assert Elems(cs) == Elems(init) + {last} by {
        assert cs == init + [last];
      }
      var prev := AddTo(m, id, init);
      forall c | c in AddTo(m, id, cs)
        ensures AddTo(m, id, cs)[c] == Get(m, c).GetOr([]) + (if c in cs then [id] else [])
      {
        if c == last {
          assert AddTo(m, id, cs)[c] == Get(prev, c).GetOr([]) + [id];
        } else {
          assert AddTo(m, id, cs)[c] == prev[c];
        }
      }
    }
  }

  /** Dropping the last element of a list without repeats leaves a list without repeats that lacks it. */
  lemma NoDupInit(cs: seq<Id>)
    requires NoDup(cs) && cs != []
    ensures NoDup(cs[..|cs| - 1]) && cs[|cs| - 1] !in cs[..|cs| - 1]
  {
    var init, last := cs[..|cs| - 1], cs[|cs| - 1];
    forall i, j | 0 <= i < j < |init| ensures init[i] != init[j] {
      assert init[i] == cs[i] && init[j] == cs[j];
    }
    forall k | 0 <= k < |init| ensures init[k] != last {
      assert init[k] == cs[k];
    }
  }

  /**
   * After a collection fetch, `c` has an entry exactly when some fetched
   * node sits in `c`, and the entry lists the ids of those nodes in fetch
   * order.
   */
  lemma {:induction false} IndexAt(nodes: seq<Node>, c: Id)
    ensures c in Index(nodes) <==> Members(nodes, c) != []
    ensures c in Index(nodes) ==> Index(nodes)[c] == Members(nodes, c)
  {
    if nodes != [] {
      var init, n := nodes[..|nodes| - 1], nodes[|nodes| - 1];
      IndexAt(init, c);
      AddToAt(Index(init), n.id, Ancestors(n));
    }
  }

  /** A fetched node's id is listed under `c` exactly when `c` occurs in one of that node's chains. */
  lemma {:induction false} MembersMember(nodes: seq<Node>, c: Id, x: Id)
    ensures x in Members(nodes, c) <==>
      exists i, k :: 0 <= i < |nodes| && nodes[i].id == x && 0 <= k < |nodes[i].collectionChains| && c in nodes[i].collectionChains[k]
  {
    if nodes != [] {
      var init, n := nodes[..|nodes| - 1], nodes[|nodes| - 1];
      MembersMember(init, c, x);
      FlattenMember(n.collectionChains, c);
      var step := if c in Flatten(n.collectionChains) then [n.id] else [];
      assert Members(nodes, c) == Members(init, c) + step;
      assert x in Members(nodes, c) <==> x in Members(init, c) || x in step;
      if exists i, k :: 0 <= i < |init| && init[i].id == x && 0 <= k < |init[i].collectionChains| && c in init[i].collectionChains[k] {
        var i, k :| 0 <= i < |init| && init[i].id == x && 0 <= k < |init[i].collectionChains| && c in init[i].collectionChains[k];
        assert nodes[i] == init[i];
      }
      if exists i, k :: 0 <= i < |nodes| && nodes[i].id == x && 0 <= k < |nodes[i].collectionChains| && c in nodes[i].collectionChains[k] {
        var i, k :| 0 <= i < |nodes| && nodes[i].id == x && 0 <= k < |nodes[i].collectionChains| && c in nodes[i].collectionChains[k];
        if i < |init| {
          assert init[i] == nodes[i];
        }
      }
    }
  }

  /** Every listed id belongs to a fetched node. */
  lemma {:induction false} MembersFromBatch(nodes: seq<Node>, c: Id)
    ensures forall x :: x in Members(nodes, c) ==> exists i :: 0 <= i < |nodes| && nodes[i].id == x
  {
    if nodes != [] {
      var init := nodes[..|nodes| - 1];
      MembersFromBatch(init, c);
      forall x | x in Members(init, c) ensures exists i :: 0 <= i < |nodes| && nodes[i].id == x {
        var i :| 0 <= i < |init| && init[i].id == x;
        assert nodes[i] == init[i];
      }
    }
  }

  /** When the fetched nodes have distinct ids, each member is listed exactly once. */
  lemma {:induction false} MembersNoDup(nodes: seq<Node>, c: Id)
    requires forall i, j :: 0 <= i < j < |nodes| ==> nodes[i].id != nodes[j].id
    ensures NoDup(Members(nodes, c))
  {
    if nodes != [] {
      var init, n := nodes[..|nodes| - 1], nodes[|nodes| - 1];
      MembersNoDup(init, c);
      MembersFromBatch(init, c);
      forall x | x in Members(init, c) ensures x != n.id {
        var i :| 0 <= i < |init| && init[i].id == x;
        assert nodes[i] == init[i];
      }
      if c in Flatten(n.collectionChains) {
        NoDupSnoc(Members(init, c), n.id);
      } else {
        assert Members(nodes, c) == Members(init, c);
      }
    }
  }

  /**
   * On a collection fetch, `nodesByCollectionId[c]` lists node `x` exactly
   * once precisely when `c` occurs in some chain of `x` (fetched nodes with
   * distinct ids); collections no fetched node sits in have no entry.
   */
  lemma GetCollectionIndex(state: map<Id, seq<Id>>, nodes: seq<Node>, coll: Id, c: Id, x: Id)
    requires forall i, j :: 0 <= i < j < |nodes| ==> nodes[i].id != nodes[j].id
    ensures var r := ByCollectionReduce(state, Action(GetCollectionSuccess(coll), Entities(Some(nodes), None, None, None)));
      && (c in r <==> exists i, k :: 0 <= i < |nodes| && 0 <= k < |nodes[i].collectionChains| && c in nodes[i].collectionChains[k])
      && (c in r ==> NoDup(r[c]) && (x in r[c] <==>
            exists i, k :: 0 <= i < |nodes| && nodes[i].id == x && 0 <= k < |nodes[i].collectionChains| && c in nodes[i].collectionChains[k]))
  {
    var r := ByCollectionReduce(state, Action(GetCollectionSuccess(coll), Entities(Some(nodes), None, None, None)));
    assert r == Index(nodes);
    IndexAt(nodes, c);
    MembersNoDup(nodes, c);
    MembersMember(nodes, c, x);
    MembersNonEmpty(nodes, c);
  }

  /** Some fetched node is listed under `c` exactly when `c` occurs in a chain of a fetched node. */
  lemma MembersNonEmpty(nodes: seq<Node>, c: Id)
    ensures Members(nodes, c) != [] <==>
      exists i, k :: 0 <= i < |nodes| && 0 <= k < |nodes[i].collectionChains| && c in nodes[i].collectionChains[k]
  {
    if exists i, k :: 0 <= i < |nodes| && 0 <= k < |nodes[i].collectionChains| && c in nodes[i].collectionChains[k] {
      var i, k :| 0 <= i < |nodes| && 0 <= k < |nodes[i].collectionChains| && c in nodes[i].collectionChains[k];
      MembersMember(nodes, c, nodes[i].id);
    }
    if Members(nodes, c) != [] {
      MembersMember(nodes, c, Members(nodes, c)[0]);
    }
  }

  /**
   * A move ends the target's list with the source id, keeps everything the
   * target listed, adds the source's members when the source is a
   * collection (then listing every id before the source id once), and
   * touches no other entry.
   */
  lemma MoveEffect(state: map<Id, seq<Id>>, src: Id, srcCollection: Id, target: Id, chain: Chain, sourceNode: Node)
    ensures var r := ByCollectionReduce(state, Action(MoveToAbstractionSuccess(src, srcCollection, target, chain, sourceNode), NoEntities));
      && r.Keys == state.Keys + {target}
      && r[target][|r[target]| - 1] == src
      && (forall x :: x in Get(state, target).GetOr([]) ==> x in r[target])
      && (sourceNode.kind == CollectionType ==> forall x :: x in Get(state, src).GetOr([]) ==> x in r[target])
      && (sourceNode.kind == CollectionType ==> NoDup(r[target][..|r[target]| - 1]))
      && (sourceNode.kind != CollectionType ==> r[target] == Get(state, target).GetOr([]) + [src])
      && (forall x :: x in r[target] ==>
            x == src || x in Get(state, target).GetOr([]) || (sourceNode.kind == CollectionType && x in Get(state, src).GetOr([])))
      && forall k :: k in state && k != target ==> r[k] == state[k]
  {
  }

  /** Removing a collection drops its key from both membership indices; removing an abstraction only from `nodesByCollectionId`. */
  lemma RemoveCollectionEffect(byCollection: map<Id, seq<Id>>, detail: map<Id, Detail>, c: Id)
    ensures ByCollectionReduce(byCollection, Action(RemoveCollectionSuccess(c), NoEntities)) == byCollection - {c}
    ensures DetailReduce(detail, Action(RemoveCollectionSuccess(c), NoEntities)) == Ok(detail - {c})
    ensures ByCollectionReduce(byCollection, Action(RemoveAbstractionSuccess(c), NoEntities)) == byCollection - {c}
    ensures DetailReduce(detail, Action(RemoveAbstractionSuccess(c), NoEntities)) == Ok(detail)
  {
  }

  /** Removing a node leaves `nodesByCollectionId` as it was: the node is still listed under its collections. */
  lemma RemoveNodeKeepsMembership(state: map<Id, seq<Id>>, n: Id, c: Option<Id>)
    ensures ByCollectionReduce(state, Action(RemoveNodeSuccess(n, c), NoEntities)) == state
  {
  }

  /** Adding a node to a collection throws exactly when the collection has no entry or no member list. */
  lemma DetailAddErrors(state: map<Id, Detail>, n: Id, c: Id, chain: Chain)
    ensures var r := DetailReduce(state, Action(AddNodeToCollectionSuccess(n, c, chain), NoEntities));
      && (r.Err? <==> c !in state || state[c].nodes.None?)
      && (r.Ok? ==> r.value[c].nodes == Some(state[c].nodes.value + [n]) && r.value - {c} == state - {c})
  {
  }

  /** Adding a node that was not listed and then removing it restores the entry. */
  lemma DetailAddRemove(state: map<Id, Detail>, n: Id, c: Id, chain: Chain)
    requires c in state && state[c].nodes.Some? && n !in state[c].nodes.value
    ensures var added := DetailReduce(state, Action(AddNodeToCollectionSuccess(n, c, chain), NoEntities));
      && added.Ok?
      && DetailReduce(added.value, Action(RemoveNodeFromCollectionSuccess(n, c), NoEntities)) == Ok(state)
  {
    var list := state[c].nodes.value;
    var added := state[c := Detail(Some(list + [n]))];
    assert DetailReduce(state, Action(AddNodeToCollectionSuccess(n, c, chain), NoEntities)) == Ok(added);
    WithoutSnoc(list, n);
    assert added[c].nodes.GetOr([]) == list + [n];
    assert added[c := Detail(Some(list))] == state;
  }

  lemma {:induction false} WithoutSnoc(s: seq<Id>, x: Id)
    requires x !in s
    ensures Without(s + [x], x) == s
  {
    if s != [] {
      assert (s + [x])[1..] == s[1..] + [x];
      WithoutSnoc(s[1..], x);
    } else {
      assert [x][1..] == [];
    }
  }

  /**
   * After a removal the node is no longer in the collection's list, every
   * other id of the list (a missing list counting as empty) stays, a list
   * without the node is kept as it was, and no other entry changes.
   */
  lemma DetailRemoveEffect(state: map<Id, Detail>, n: Id, c: Id)
    ensures var r := DetailReduce(state, Action(RemoveNodeFromCollectionSuccess(n, c), NoEntities));
      && (r.Err? <==> c !in state)
      && (r.Ok? ==> r.value[c].nodes.Some? && n !in r.value[c].nodes.value && r.value - {c} == state - {c})
      && (r.Ok? ==> forall x :: x != n ==> (x in r.value[c].nodes.value <==> x in state[c].nodes.GetOr([])))
      && (r.Ok? && n !in state[c].nodes.GetOr([]) ==> r.value[c].nodes == Some(state[c].nodes.GetOr([])))
  {
  }

  /** Removing a node without a collection id leaves the details as they were. */
  lemma DetailRemoveNodeWithoutCollection(state: map<Id, Detail>, n: Id)
    ensures DetailReduce(state, Action(RemoveNodeSuccess(n, None), NoEntities)) == Ok(state)
  {
  }
}
