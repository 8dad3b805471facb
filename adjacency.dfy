/**
 * The reducers `adjacencyMap` (to what nodes does a node link?) and
 * `reverseAdjacencyMap` (what nodes link to it?). Both are the same loop
 * with the roles of an edge's ends swapped: a local map is filled with a
 * copy of the stored list of every key a batch edge names, each batch edge
 * pushes its other end onto its key's list, and the local map is spread
 * over the old state.
 */
module Adjacency {
  import opened Types
  import opened Merge

  /** Which end of an edge keys the list: `start` for `adjacencyMap`, `end` for `reverseAdjacencyMap`. */
  datatype Direction = Outgoing | Incoming

  function KeyEnd(e: Edge, d: Direction): Id {
    if d == Outgoing then e.start else e.end
  }

  function OtherEnd(e: Edge, d: Direction): Id {
    if d == Outgoing then e.end else e.start
  }

  /** The ends a batch pushes onto the list of key `k`, in batch order. */
  function Pushed(batch: seq<Edge>, d: Direction, k: Id): seq<Id> {
    if batch == [] then []
    else
      var last := batch[|batch| - 1];
      Pushed(batch[..|batch| - 1], d, k) + (if KeyEnd(last, d) == k then [OtherEnd(last, d)] else [])
  }

  /** The keys a batch names. */
  function Named(batch: seq<Edge>, d: Direction): set<Id> {
    set i | 0 <= i < |batch| :: KeyEnd(batch[i], d)
  }

  /** The local `adjMap` after the given edges: for every named key, the stored list (or `[]`) and what the edges pushed. */
  function Local(state: map<Id, seq<Id>>, batch: seq<Edge>, d: Direction): map<Id, seq<Id>> {
    map k | k in Named(batch, d) :: Get(state, k).GetOr([]) + Pushed(batch, d, k)
  }

  /** `{...state, ...adjMap}`: the local map wins on the keys it holds. */
  function Spread(state: map<Id, seq<Id>>, local: map<Id, seq<Id>>): map<Id, seq<Id>> {
    map k | k in state.Keys + local.Keys :: if k in local then local[k] else state[k]
  }

  /** The lists after a batch of edges has been appended. */
  function Appended(state: map<Id, seq<Id>>, batch: seq<Edge>, d: Direction): map<Id, seq<Id>> {
    Spread(state, Local(state, batch, d))
  }

  /**
   * The `default:` branch on a batch of edges: a loop that fills the local
   * map and then spreads it over the state.
   */
  method AppendEndpoints(state: map<Id, seq<Id>>, batch: seq<Edge>, d: Direction) returns (r: map<Id, seq<Id>>)
    ensures r == Appended(state, batch, d)
  {
    var adj: map<Id, seq<Id>> := map[];
    var i := 0;
    while i < |batch|
      invariant 0 <= i <= |batch|
      invariant adj == Visits(state, batch[..i], d)
    {
      var e := batch[i];
      var k := KeyEnd(e, d);
      ghost var prev := adj;
      var base: seq<Id>;
      if k in adj {
        base := adj[k];
      } else if k in state {
        base := state[k];
      } else {
        base := [];
      }
      adj := adj[k := base + [OtherEnd(e, d)]];
      assert adj == Visits(state, batch[..i + 1], d) by {
        assert adj == Visit(state, prev, e, d);
        assert batch[..i + 1][..i] == batch[..i];
      }
      i := i + 1;
    }
    assert adj == Local(state, batch, d) by {
      assert batch[..i] == batch;
      VisitsLocal(state, batch, d);
    }
    r := Spread(state, adj);
  }

  /** One pass of the loop body: the edge's key gets its list (copied from the state on first sight) and the other end pushed. */
  function Visit(state: map<Id, seq<Id>>, adj: map<Id, seq<Id>>, e: Edge, d: Direction): map<Id, seq<Id>> {
    var k := KeyEnd(e, d);
    var base := if k in adj then adj[k] else if k in state then state[k] else [];
    adj[k := base + [OtherEnd(e, d)]]
  }

  /** The local map after the loop has visited the given edges in order. */
  function Visits(state: map<Id, seq<Id>>, batch: seq<Edge>, d: Direction): map<Id, seq<Id>> {
    if batch == [] then map[]
    else Visit(state, Visits(state, batch[..|batch| - 1], d), batch[|batch| - 1], d)
  }

  /** Visiting the edges one by one builds exactly the local map. */
  lemma {:induction false} VisitsLocal(state: map<Id, seq<Id>>, batch: seq<Edge>, d: Direction)
    ensures Visits(state, batch, d) == Local(state, batch, d)
  {
    if batch == [] {
      assert Named(batch, d) == {};
    } else {
      var n := |batch| - 1;
      var k := KeyEnd(batch[n], d);
      VisitsLocal(state, batch[..n], d);
      LocalStep(state, batch, n, d);
      assert batch[..n + 1] == batch;
      assert Get(state, k).GetOr([]) == if k in state then state[k] else [];
    }
  }

  lemma PushedSnoc(batch: seq<Edge>, i: nat, d: Direction, j: Id)
    requires i < |batch|
    ensures Pushed(batch[..i + 1], d, j) ==
      Pushed(batch[..i], d, j) + (if KeyEnd(batch[i], d) == j then [OtherEnd(batch[i], d)] else [])
  {
    assert batch[..i + 1][..i] == batch[..i];
  }

  lemma NamedSnoc(batch: seq<Edge>, i: nat, d: Direction)
    requires i < |batch|
    ensures Named(batch[..i + 1], d) == Named(batch[..i], d) + {KeyEnd(batch[i], d)}
  {
    forall x | x in Named(batch[..i + 1], d) ensures x in Named(batch[..i], d) + {KeyEnd(batch[i], d)} {
      var j :| 0 <= j < i + 1 && KeyEnd(batch[..i + 1][j], d) == x;
      if j < i {
        assert batch[..i][j] == batch[..i + 1][j];
      }
    }
    forall x | x in Named(batch[..i], d) ensures x in Named(batch[..i + 1], d) {
      var j :| 0 <= j < i && KeyEnd(batch[..i][j], d) == x;
      assert batch[..i + 1][j] == batch[..i][j];
    }
    assert KeyEnd(batch[..i + 1][i], d) == KeyEnd(batch[i], d);
  }

  lemma LocalAt(state: map<Id, seq<Id>>, batch: seq<Edge>, d: Direction, j: Id)
    requires j in Named(batch, d)
    ensures j in Local(state, batch, d) && Local(state, batch, d)[j] == Get(state, j).GetOr([]) + Pushed(batch, d, j)
  {
  }

  /** One more edge, seen from key `j`: only the edge's own key changes, getting the other end pushed. */
  lemma LocalStepAt(state: map<Id, seq<Id>>, batch: seq<Edge>, i: nat, d: Direction, j: Id)
    requires i < |batch|
    requires j in Named(batch[..i + 1], d)
    ensures var prev := Local(state, batch[..i], d);
      var k := KeyEnd(batch[i], d);
      Local(state, batch[..i + 1], d)[j] ==
        if j == k then (if k in prev then prev[k] else Get(state, k).GetOr([])) + [OtherEnd(batch[i], d)]
        else prev[j]
  {
    var k := KeyEnd(batch[i], d);
    NamedSnoc(batch, i, d);
    PushedSnoc(batch, i, d, j);
    LocalAt(state, batch[..i + 1], d, j);
    if j in Named(batch[..i], d) {
      LocalAt(state, batch[..i], d, j);
    } else {
      PushedUnnamed(batch[..i], d, j);
    }
  }

  /** One more edge: its key's list (copied from the state on first sight) gets the other end pushed. */
  lemma LocalStep(state: map<Id, seq<Id>>, batch: seq<Edge>, i: nat, d: Direction)
    requires i < |batch|
    ensures var prev := Local(state, batch[..i], d);
      var k := KeyEnd(batch[i], d);
      var base := if k in prev then prev[k] else Get(state, k).GetOr([]);
      Local(state, batch[..i + 1], d) == prev[k := base + [OtherEnd(batch[i], d)]]
  {
    var k := KeyEnd(batch[i], d);
    var prev := Local(state, batch[..i], d);
    var next := Local(state, batch[..i + 1], d);
    var base := if k in prev then prev[k] else Get(state, k).GetOr([]);
    var want := prev[k := base + [OtherEnd(batch[i], d)]];
    NamedSnoc(batch, i, d);
    assert next.Keys == want.Keys;
    forall j | j in next ensures next[j] == want[j] {
      LocalStepAt(state, batch, i, d, j);
    }
  }

  /** The pure reducer: what the method below computes. */
  function Reduce(state: map<Id, seq<Id>>, a: Action, d: Direction): map<Id, seq<Id>> {
    match a.event
    case RemoveNodeSuccess(n, _) => state - {n}
    case _ =>
      if a.entities.edges.Some? then Appended(state, a.entities.edges.value, d) else state
  }

  /** The reducer as the original runs it. */
  method Reducer(state: map<Id, seq<Id>>, a: Action, d: Direction) returns (r: map<Id, seq<Id>>)
    ensures r == Reduce(state, a, d)
  {
    if a.event.RemoveNodeSuccess? {
      r := state - {a.event.nodeId};
    } else if a.entities.edges.Some? {
      r := AppendEndpoints(state, a.entities.edges.value, d);
    } else {
      r := state;
    }
  }

  // ---------------------------------------------------------------------------
  // Properties

  /** `x` is pushed onto `k`'s list exactly when the batch holds an edge from `k` to `x` (in the direction's sense). */
  lemma {:induction false} PushedMember(batch: seq<Edge>, d: Direction, k: Id, x: Id)
    ensures x in Pushed(batch, d, k) <==> exists i :: 0 <= i < |batch| && KeyEnd(batch[i], d) == k && OtherEnd(batch[i], d) == x
  {
    if batch != [] {
      var init := batch[..|batch| - 1];
      var last := batch[|batch| - 1];
      PushedMember(init, d, k, x);
      var step := if KeyEnd(last, d) == k then [OtherEnd(last, d)] else [];
      assert Pushed(batch, d, k) == Pushed(init, d, k) + step;
      assert x in Pushed(batch, d, k) <==> x in Pushed(init, d, k) || x in step;
      if exists i :: 0 <= i < |init| && KeyEnd(init[i], d) == k && OtherEnd(init[i], d) == x {
        var i :| 0 <= i < |init| && KeyEnd(init[i], d) == k && OtherEnd(init[i], d) == x;
        assert batch[i] == init[i];
      }
      if exists i :: 0 <= i < |batch| && KeyEnd(batch[i], d) == k && OtherEnd(batch[i], d) == x {
        var i :| 0 <= i < |batch| && KeyEnd(batch[i], d) == k && OtherEnd(batch[i], d) == x;
        if i < |init| {
          assert init[i] == batch[i];
        }
      }
    }
  }

  /** A key no batch edge names gets nothing pushed. */
  lemma {:induction false} PushedUnnamed(batch: seq<Edge>, d: Direction, k: Id)
    requires k !in Named(batch, d)
    ensures Pushed(batch, d, k) == []
  {
    if batch != [] {
      var init := batch[..|batch| - 1];
      assert Named(init, d) <= Named(batch, d) by {
        forall x | x in Named(init, d) ensures x in Named(batch, d) {
          var i :| 0 <= i < |init| && KeyEnd(init[i], d) == x;
          assert batch[i] == init[i];
        }
      }
      PushedUnnamed(init, d, k);
    }
  }

  /**
   * After a batch of edges, the list of every key is its old list (or `[]`)
   * followed by the other end of each batch edge on that key, in batch
   * order; keys no batch edge names keep their lists, and no key is lost.
   */
  lemma AppendedAt(state: map<Id, seq<Id>>, batch: seq<Edge>, d: Direction)
    ensures Appended(state, batch, d).Keys == state.Keys + Named(batch, d)
    ensures forall k :: k in Appended(state, batch, d) ==>
      Appended(state, batch, d)[k] == Get(state, k).GetOr([]) + Pushed(batch, d, k)
    ensures forall k :: k in state && k !in Named(batch, d) ==> Appended(state, batch, d)[k] == state[k]
  {
    forall k | k in state && k !in Named(batch, d)
      ensures Get(state, k).GetOr([]) + Pushed(batch, d, k) == state[k]
    {
      PushedUnnamed(batch, d, k);
    }
  }

  /** `x` occurs in the list kept under `k`. */
  predicate Lists(m: map<Id, seq<Id>>, k: Id, x: Id) {
    k in m && x in m[k]
  }

  /** Every link recorded in the forward map is recorded, reversed, in the reverse map, and back. */
  ghost predicate Mirrored(adj: map<Id, seq<Id>>, rev: map<Id, seq<Id>>) {
    forall u, v :: Lists(adj, u, v) <==> Lists(rev, v, u)
  }

  /** A link is listed after a batch exactly when it was listed before or a batch edge makes it. */
  lemma AppendedLists(state: map<Id, seq<Id>>, batch: seq<Edge>, d: Direction, k: Id, x: Id)
    ensures Lists(Appended(state, batch, d), k, x) <==>
      Lists(state, k, x) || exists i :: 0 <= i < |batch| && KeyEnd(batch[i], d) == k && OtherEnd(batch[i], d) == x
  {
    AppendedAt(state, batch, d);
    PushedMember(batch, d, k, x);
    if exists i :: 0 <= i < |batch| && KeyEnd(batch[i], d) == k && OtherEnd(batch[i], d) == x {
      var i :| 0 <= i < |batch| && KeyEnd(batch[i], d) == k && OtherEnd(batch[i], d) == x;
      assert k in Named(batch, d);
    }
  }

  /**
   * The forward and reverse maps stay mirror images of each other when the
   * same batch of edges is appended to both.
   */
  lemma AppendKeepsMirrored(adj: map<Id, seq<Id>>, rev: map<Id, seq<Id>>, batch: seq<Edge>)
    requires Mirrored(adj, rev)
    ensures Mirrored(Appended(adj, batch, Outgoing), Appended(rev, batch, Incoming))
  {
    forall u, v
      ensures Lists(Appended(adj, batch, Outgoing), u, v) <==> Lists(Appended(rev, batch, Incoming), v, u)
    {
      AppendedLists(adj, batch, Outgoing, u, v);
      AppendedLists(rev, batch, Incoming, v, u);
    }
  }

  /**
   * Removing a node drops only its own key: other lists still name it, so
   * the mirror property can break (node `"b"` still listed under `"a"`
   * while `"b"` has no reverse entry).
   */
  lemma RemoveNodeBreaksMirror()
    ensures var adj := map["a" := ["b"]];
      var rev := map["b" := ["a"]];
      var a := Action(RemoveNodeSuccess("b", None), NoEntities);
      && Mirrored(adj, rev)
      && !Mirrored(Reduce(adj, a, Outgoing), Reduce(rev, a, Incoming))
  {
    var adj := map["a" := ["b"]];
    var rev := map["b" := ["a"]];
    var a := Action(RemoveNodeSuccess("b", None), NoEntities);
    forall u, v ensures Lists(adj, u, v) <==> Lists(rev, v, u) {
    }
    assert Lists(Reduce(adj, a, Outgoing), "a", "b");
    assert !Lists(Reduce(rev, a, Incoming), "b", "a");
  }

  /**
   * Fetching the same edge twice lists its end twice: the index does not
   * deduplicate (the original leaves this to a later change).
   */
  lemma RefetchDuplicates()
    ensures var batch := [Edge("e", "a", "b")];
      var once := Appended(map[], batch, Outgoing);
      && "a" in once && once["a"] == ["b"]
      && "a" in Appended(once, batch, Outgoing)
      && Appended(once, batch, Outgoing)["a"] == ["b", "b"]
  {
    var batch := [Edge("e", "a", "b")];
    assert Pushed(batch, Outgoing, "a") == ["b"] by {
      assert batch[..0] == [];
    }
    assert "a" in Named(batch, Outgoing) by {
      assert KeyEnd(batch[0], Outgoing) == "a";
    }
    AppendedAt(map[], batch, Outgoing);
    var once := Appended(map[], batch, Outgoing);
    AppendedAt(once, batch, Outgoing);
  }
}
