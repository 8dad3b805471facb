/**
 * The merge-on-fetch of the entity reducers, `_.merge({}, state, incoming)`,
 * taken one level deep: every incoming record lands on the key given by its
 * own id and is overlaid on the record that key held, if any.
 */
module Merge {
  import opened Types

  function Get<T>(m: map<Id, T>, k: Id): Option<T> {
    if k in m then Some(m[k]) else None
  }

  /**
   * The records of the ids, in order (`ids.map(id => state.x[id])`). The
   * first id without a record gives `undefined` in the original, and the
   * field read on it that follows throws.
   */
  function Lookup<T>(m: map<Id, T>, ids: seq<Id>): (r: Result<seq<T>>)
    ensures r.Ok? <==> forall x :: x in ids ==> x in m
    ensures r.Ok? ==> |r.value| == |ids| && forall i :: 0 <= i < |ids| ==> r.value[i] == m[ids[i]]
  {
    if ids == [] then Ok([])
    else if ids[0] !in m then Err(MissingRecord(ids[0]))
    else
      match Lookup(m, ids[1..])
      case Err(f) => Err(f)
      case Ok(rest) => Ok([m[ids[0]]] + rest)
  }

  /** Every stored record sits under its own id. */
  ghost predicate WellKeyed<T>(m: map<Id, T>, key: T -> Id) {
    forall k :: k in m ==> key(m[k]) == k
  }

  /** The properties of a record overlay that the merge lemmas rely on. */
  ghost predicate LawfulOverlay<T(!new)>(key: T -> Id, ov: (T, T) -> T) {
    && (forall x, y, z :: ov(ov(x, y), z) == ov(x, ov(y, z)))
    && (forall x :: ov(x, x) == x)
    && (forall x, y :: key(ov(x, y)) == key(y))
  }

  /** One incoming record merged into the map. */
  function MergeOne<T>(m: map<Id, T>, r: T, key: T -> Id, ov: (T, T) -> T): map<Id, T> {
    m[key(r) := if key(r) in m then ov(m[key(r)], r) else r]
  }

  /** A batch of incoming records merged into the map, in order. */
  function MergeAll<T>(m: map<Id, T>, batch: seq<T>, key: T -> Id, ov: (T, T) -> T): map<Id, T> {
    if batch == [] then m
    else MergeOne(MergeAll(m, batch[..|batch| - 1], key, ov), batch[|batch| - 1], key, ov)
  }

  /** The records of a batch that carry key `k`, in batch order. */
  function ForKey<T>(batch: seq<T>, key: T -> Id, k: Id): (r: seq<T>)
    ensures forall x :: x in r ==> key(x) == k
  {
    if batch == [] then []
    else ForKey(batch[..|batch| - 1], key, k) + (if key(batch[|batch| - 1]) == k then [batch[|batch| - 1]] else [])
  }

  /** The ids a batch names. */
  function BatchKeys<T>(batch: seq<T>, key: T -> Id): set<Id> {
    set i | 0 <= i < |batch| :: key(batch[i])
  }

  function Put<T>(current: Option<T>, r: T, ov: (T, T) -> T): T {
    match current
    case None => r
    case Some(x) => ov(x, r)
  }

  /** A stored value (or none) with a sequence of records overlaid in order. */
  function Absorb<T>(current: Option<T>, rs: seq<T>, ov: (T, T) -> T): Option<T> {
    if rs == [] then current
    else Some(Put(Absorb(current, rs[..|rs| - 1], ov), rs[|rs| - 1], ov))
  }

  /** A non-empty sequence of records overlaid onto its first one. */
  function Combine<T>(rs: seq<T>, ov: (T, T) -> T): T
    requires rs != []
  {
    if |rs| == 1 then rs[0] else ov(Combine(rs[..|rs| - 1], ov), rs[|rs| - 1])
  }

  lemma BatchKeysSnoc<T>(batch: seq<T>, key: T -> Id)
    requires batch != []
    ensures BatchKeys(batch, key) == BatchKeys(batch[..|batch| - 1], key) + {key(batch[|batch| - 1])}
  {
    var init := batch[..|batch| - 1];
    forall x | x in BatchKeys(batch, key) ensures x in BatchKeys(init, key) + {key(batch[|batch| - 1])} {
      var i :| 0 <= i < |batch| && key(batch[i]) == x;
      if i < |init| {
        assert key(init[i]) == x;
      }
    }
    forall x | x in BatchKeys(init, key) ensures x in BatchKeys(batch, key) {
      var i :| 0 <= i < |init| && key(init[i]) == x;
      assert key(batch[i]) == x;
    }
  }

  /** What a merged map holds under `k`: its old value with the batch's records for `k` overlaid in order. */
  lemma {:induction false} MergeAllAt<T>(m: map<Id, T>, batch: seq<T>, key: T -> Id, ov: (T, T) -> T, k: Id)
    ensures Get(MergeAll(m, batch, key, ov), k) == Absorb(Get(m, k), ForKey(batch, key, k), ov)
    ensures k in MergeAll(m, batch, key, ov) <==> k in m || k in BatchKeys(batch, key)
  {
    if batch != [] {
      var init, last := batch[..|batch| - 1], batch[|batch| - 1];
      MergeAllAt(m, init, key, ov, k);
      assert batch == init + [last];
      BatchKeysSnoc(batch, key);
      if key(last) == k {
        assert ForKey(batch, key, k) == ForKey(init, key, k) + [last];
        assert ForKey(batch, key, k)[..|ForKey(batch, key, k)| - 1] == ForKey(init, key, k);
      } else {
        assert ForKey(batch, key, k) == ForKey(init, key, k);
      }
    }
  }

  lemma {:induction false} AbsorbCombine<T(!new)>(current: Option<T>, rs: seq<T>, key: T -> Id, ov: (T, T) -> T)
    requires LawfulOverlay(key, ov)
    requires rs != []
    ensures Absorb(current, rs, ov) == Some(Put(current, Combine(rs, ov), ov))
  {
    if |rs| > 1 {
      var init := rs[..|rs| - 1];
      AbsorbCombine(current, init, key, ov);
      assert init[..|init| - 1] == rs[..|rs| - 2];
    } else {
      assert rs[..0] == [];
    }
  }

  /** Overlaying the same records twice is the same as overlaying them once. */
  lemma AbsorbTwice<T(!new)>(current: Option<T>, rs: seq<T>, key: T -> Id, ov: (T, T) -> T)
    requires LawfulOverlay(key, ov)
    ensures Absorb(Absorb(current, rs, ov), rs, ov) == Absorb(current, rs, ov)
  {
    if rs != [] {
      AbsorbCombine(current, rs, key, ov);
      AbsorbCombine(Absorb(current, rs, ov), rs, key, ov);
    }
  }

  /** Merging the same payload twice yields the same map as merging it once. */
  lemma MergeIdempotent<T(!new)>(m: map<Id, T>, batch: seq<T>, key: T -> Id, ov: (T, T) -> T)
    requires LawfulOverlay(key, ov)
    ensures MergeAll(MergeAll(m, batch, key, ov), batch, key, ov) == MergeAll(m, batch, key, ov)
  {
    var once := MergeAll(m, batch, key, ov);
    var twice := MergeAll(once, batch, key, ov);
    forall k | true
      ensures k in twice <==> k in once
      ensures k in once ==> twice[k] == once[k]
    {
      MergeAllAt(m, batch, key, ov, k);
      MergeAllAt(once, batch, key, ov, k);
      AbsorbTwice(Get(m, k), ForKey(batch, key, k), key, ov);
    }
  }

  /** Merging keeps every record under its own id, and keys the batch does not name keep their records. */
  lemma {:induction false} MergeKeepsShape<T(!new)>(m: map<Id, T>, batch: seq<T>, key: T -> Id, ov: (T, T) -> T)
    requires forall x, y :: key(ov(x, y)) == key(y)
    requires WellKeyed(m, key)
    ensures WellKeyed(MergeAll(m, batch, key, ov), key)
    ensures MergeAll(m, batch, key, ov).Keys == m.Keys + BatchKeys(batch, key)
    ensures forall k :: k in m && k !in BatchKeys(batch, key) ==> MergeAll(m, batch, key, ov)[k] == m[k]
  {
    if batch != [] {
      var init := batch[..|batch| - 1];
      MergeKeepsShape(m, init, key, ov);
      assert batch == init + [batch[|batch| - 1]];
      assert BatchKeys(batch, key) == BatchKeys(init, key) + {key(batch[|batch| - 1])};
    }
  }

  /** The node overlay is lawful: associative, idempotent and keyed by the incoming id. */
  lemma NodeOverlayLawful()
    ensures LawfulOverlay(NodeKey, Overlay)
  {
  }

  lemma EdgeReplaceLawful()
    ensures LawfulOverlay(EdgeKey, ReplaceEdge)
    ensures LawfulOverlay(CollectionEdgeKey, ReplaceCollectionEdge)
  {
  }
}
