/**
 * The small list and counter reducers: `inboxNodes` (ids of the inbox),
 * `batchNodes` (ids of the nodes created in the current batch) and
 * `synced` (requests in flight).
 */
module Tracking {
  import opened Types
  import opened Lists

  /** The `inboxNodes` reducer. */
  function InboxReduce(state: seq<Id>, a: Action): seq<Id> {
    match a.event
    case RemoveNodeSuccess(n, _) => Without(state, n)
    case GetInboxNodesSuccess(ids) => ids
    case _ => state
  }

  /**
   * A new edge from or to a batch node: `_.intersection(state, [start, end])`
   * and, when exactly one endpoint is in the batch, the other one appended.
   */
  function ConnectBatch(state: seq<Id>, s: Id, t: Id): seq<Id> {
    var inBatch := Intersection(state, [s, t]);
    if |inBatch| == 1 then state + [if s == inBatch[0] then t else s] else state
  }

  /** The `batchNodes` reducer. */
  function BatchReduce(state: seq<Id>, a: Action): seq<Id> {
    match a.event
    case RemoveNodeSuccess(n, _) => Without(state, n)
    case GetAllBatchNodesSuccess(ids) => ids
    case CreateBatchNodeSuccess(n) => state + [n]
    case DuplicateNodeSuccess(n, isBatch) => if isBatch then state + [n] else state
    case ConnectNodesSuccess(s, t, _) => ConnectBatch(state, s, t)
    case ClearBatchNodesSuccess => []
    case _ => state
  }

  /** The `synced` reducer: a request raises the count, a success or failure lowers it. */
  function SyncedReduce(state: int, a: Action): int {
    match PhaseOf(a.event)
    case Request => state + 1
    case Success => state - 1
    case Failure => state - 1
    case Plain => state
  }

  /** `isSynced`: no request is in flight. */
  predicate IsSynced(state: int) {
    state == 0
  }

  /** The counter after a sequence of actions. */
  function SyncedAfter(state: int, actions: seq<Action>): int {
    if actions == [] then state else SyncedReduce(SyncedAfter(state, actions[..|actions| - 1]), actions[|actions| - 1])
  }

  /** The number of actions in a sequence with the given phase. */
  function CountPhase(actions: seq<Action>, p: Phase): nat {
    if actions == [] then 0
    else CountPhase(actions[..|actions| - 1], p) + (if PhaseOf(actions[|actions| - 1].event) == p then 1 else 0)
  }

  // ---------------------------------------------------------------------------
  // Properties

  /** Removing a node takes every occurrence of it out of both lists and keeps every other id. */
  lemma RemoveNodeEffect(inbox: seq<Id>, batch: seq<Id>, n: Id, c: Option<Id>)
    ensures var a := Action(RemoveNodeSuccess(n, c), NoEntities);
      && n !in InboxReduce(inbox, a) && n !in BatchReduce(batch, a)
      && (forall x :: x != n ==> (x in InboxReduce(inbox, a) <==> x in inbox))
      && (forall x :: x != n ==> (x in BatchReduce(batch, a) <==> x in batch))
      && (n !in inbox ==> InboxReduce(inbox, a) == inbox)
      && (n !in batch ==> BatchReduce(batch, a) == batch)
  {
  }

  /**
   * Connecting two distinct nodes of which exactly one is in the batch
   * appends the other; otherwise the batch is unchanged.
   */
  lemma ConnectEffect(state: seq<Id>, s: Id, t: Id, e: Id)
    requires s != t
    ensures var r := BatchReduce(state, Action(ConnectNodesSuccess(s, t, e), NoEntities));
      && (s in state && t !in state ==> r == state + [t])
      && (t in state && s !in state ==> r == state + [s])
      && ((s in state) == (t in state) ==> r == state)
  {
    var inBatch := Intersection(state, [s, t]);
    if s in state && t !in state {
      assert forall x :: x in inBatch <==> x == s;
      assert |inBatch| == 1 by {
        ElemsCard(inBatch);
        assert Elems(inBatch) == {s};
      }
      assert inBatch[0] == s;
    } else if t in state && s !in state {
      assert forall x :: x in inBatch <==> x == t;
      assert |inBatch| == 1 by {
        ElemsCard(inBatch);
        assert Elems(inBatch) == {t};
      }
      assert inBatch[0] == t;
    } else if s in state {
      assert forall x :: x in inBatch <==> x == s || x == t;
      assert |inBatch| == 2 by {
        ElemsCard(inBatch);
        assert Elems(inBatch) == {s, t};
      }
    } else {
      assert |inBatch| == 0 by {
        ElemsCard(inBatch);
        assert Elems(inBatch) == {};
      }
    }
  }

  /** Connecting a batch node to itself appends it a second time. */
  lemma ConnectSelfDuplicates(state: seq<Id>, s: Id, e: Id)
    requires s in state
    ensures BatchReduce(state, Action(ConnectNodesSuccess(s, s, e), NoEntities)) == state + [s]
  {
    var inBatch := Intersection(state, [s, s]);
    assert forall x :: x in inBatch <==> x == s;
    assert |inBatch| == 1 by {
      ElemsCard(inBatch);
      assert Elems(inBatch) == {s};
    }
  }

  /** After a sequence of actions the counter has moved by the requests minus the successes and failures. */
  lemma {:induction false} SyncedCounts(state: int, actions: seq<Action>)
    ensures SyncedAfter(state, actions) ==
      state + CountPhase(actions, Request) - CountPhase(actions, Success) - CountPhase(actions, Failure)
  {
    if actions != [] {
      SyncedCounts(state, actions[..|actions| - 1]);
    }
  }

  /** A store with no request in flight is synced again once every request has been answered. */
  lemma SyncedWhenAnswered(actions: seq<Action>)
    requires CountPhase(actions, Request) == CountPhase(actions, Success) + CountPhase(actions, Failure)
    ensures IsSynced(SyncedAfter(0, actions))
  {
    SyncedCounts(0, actions);
  }

  /** An action that is neither a request nor a response leaves every tracking list and the counter alone. */
  lemma PlainActionsChangeNothing(inbox: seq<Id>, batch: seq<Id>, synced: int)
    ensures var a := Action(OtherUi, NoEntities);
      InboxReduce(inbox, a) == inbox && BatchReduce(batch, a) == batch && SyncedReduce(synced, a) == synced
  {
  }
}
