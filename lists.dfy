/**
 * Sequence operations with the meaning the reducers rely on: `_.without`,
 * `_.uniq`, `_.intersection`, `_.difference`, `_.union` and `_.flatten`
 * over JavaScript arrays.
 */
module Lists {

  /** The set of elements of a sequence. */
  function Elems<T>(s: seq<T>): set<T> {
    set x | x in s
  }

  /** No element occurs twice. */
  predicate NoDup<T(==)>(s: seq<T>) {
    forall i, j :: 0 <= i < j < |s| ==> s[i] != s[j]
  }

  /** `_.without(s, x)`: every occurrence of `x` removed, order kept. */
  function Without<T(==,!new)>(s: seq<T>, x: T): (r: seq<T>)
    ensures forall y :: y in r <==> y in s && y != x
    ensures |r| <= |s|
    ensures x !in s ==> r == s
  {
    if s == [] then [] else (if s[0] == x then [] else [s[0]]) + Without(s[1..], x)
  }

  /** `_.uniq(s)`: the first occurrence of every element, in order. */
  function Dedup<T(==,!new)>(s: seq<T>): (r: seq<T>)
    ensures forall y :: y in r <==> y in s
    ensures NoDup(r)
    ensures |r| <= |s|
  {
    if s == [] then []
    else
      var d := Dedup(s[..|s| - 1]);
      if s[|s| - 1] in d then d else d + [s[|s| - 1]]
  }

  /** The elements of `a` that are also in `b`, duplicates and order kept. */
  function Keep<T(==,!new)>(a: seq<T>, b: seq<T>): (r: seq<T>)
    ensures forall y :: y in r <==> y in a && y in b
  {
    if a == [] then [] else (if a[0] in b then [a[0]] else []) + Keep(a[1..], b)
  }

  /** The elements of `s` that are in `keys`, order kept. */
  function Select<T(==,!new)>(s: seq<T>, keys: set<T>): (r: seq<T>)
    ensures forall y :: y in r <==> y in s && y in keys
    ensures NoDup(s) ==> NoDup(r)
    ensures s != [] && s[0] in keys ==> r != [] && r[0] == s[0]
  {
    if s == [] then []
    else
      var rest := Select(s[1..], keys);
      if s[0] in keys then
        assert NoDup(s) ==> s[0] !in s[1..] by {
          if NoDup(s) {
            forall i | 0 <= i < |s[1..]| ensures s[1..][i] != s[0] {
              assert s[1..][i] == s[i + 1];
            }
          }
        }
        assert NoDup(s) ==> NoDup(s[1..]) by {
          if NoDup(s) {
            forall i, j | 0 <= i < j < |s[1..]| ensures s[1..][i] != s[1..][j] {
              assert s[1..][i] == s[i + 1] && s[1..][j] == s[j + 1];
            }
          }
        }
        [s[0]] + rest
      else
        assert NoDup(s) ==> NoDup(s[1..]) by {
          if NoDup(s) {
            forall i, j | 0 <= i < j < |s[1..]| ensures s[1..][i] != s[1..][j] {
              assert s[1..][i] == s[i + 1] && s[1..][j] == s[j + 1];
            }
          }
        }
        rest
  }

  /** `_.intersection(a, b)`: the distinct elements of `a` that occur in `b`, in the order of `a`. */
  function Intersection<T(==,!new)>(a: seq<T>, b: seq<T>): seq<T> {
    Dedup(Keep(a, b))
  }

  /** `_.difference(a, b)`: the elements of `a` not in `b`, duplicates and order kept. */
  function Difference<T(==,!new)>(a: seq<T>, b: seq<T>): (r: seq<T>)
    ensures forall y :: y in r <==> y in a && y !in b
  {
    if a == [] then [] else (if a[0] in b then [] else [a[0]]) + Difference(a[1..], b)
  }

  /** `_.union(a, b)`: the distinct elements of `a` then `b`, first occurrences first. */
  function Union<T(==,!new)>(a: seq<T>, b: seq<T>): seq<T> {
    Dedup(a + b)
  }

  /** `_.flatten(chains)`: one level of nesting removed. */
  function Flatten<T>(chains: seq<seq<T>>): (r: seq<T>)
  {
    if chains == [] then [] else chains[0] + Flatten(chains[1..])
  }

  /** `x` occurs in one of the inner sequences exactly when it occurs in the flattening. */
  lemma {:induction false} FlattenMember<T>(chains: seq<seq<T>>, x: T)
    ensures x in Flatten(chains) <==> exists i :: 0 <= i < |chains| && x in chains[i]
  {
    if chains != [] {
      FlattenMember(chains[1..], x);
      if x in Flatten(chains[1..]) {
        var i :| 0 <= i < |chains[1..]| && x in chains[1..][i];
        assert x in chains[i + 1];
      }
      if exists i :: 0 <= i < |chains| && x in chains[i] {
        var i :| 0 <= i < |chains| && x in chains[i];
        if i > 0 { assert x in chains[1..][i - 1]; }
      }
    }
  }

  /** The number of distinct elements never exceeds the length, and equals it exactly when there are no duplicates. */
  lemma {:induction false} ElemsCard<T>(s: seq<T>)
    ensures |Elems(s)| <= |s|
    ensures |Elems(s)| == |s| <==> NoDup(s)
  {
    if s != [] {
      var init, last := s[..|s| - 1], s[|s| - 1];
      ElemsCard(init);
      assert s == init + [last];
      assert Elems(s) == Elems(init) + {last};
      if last in init {
        assert Elems(s) == Elems(init);
        var k :| 0 <= k < |init| && init[k] == last;
        assert s[k] == s[|s| - 1];
        assert !NoDup(s);
      } else {
        assert last !in Elems(init);
        assert |Elems(s)| == |Elems(init)| + 1;
        if NoDup(init) {
          forall i, j | 0 <= i < j < |s| ensures s[i] != s[j] {
            if j == |s| - 1 { assert s[i] == init[i]; }
          }
        } else {
          var i, j :| 0 <= i < j < |init| && init[i] == init[j];
          assert s[i] == s[j];
        }
      }
    }
  }

  /**
   * The test `_.intersection(chain, cc).length === cc.length` holds exactly
   * when `cc` has no duplicates and every element of `cc` occurs in `chain`.
   */
  lemma IntersectionCovers<T(!new)>(chain: seq<T>, cc: seq<T>)
    ensures |Intersection(chain, cc)| == |cc| <==> NoDup(cc) && forall x :: x in cc ==> x in chain
  {
    var i := Intersection(chain, cc);
    ElemsCard(i);
    ElemsCard(cc);
    assert Elems(i) <= Elems(cc);
    assert |Elems(i)| <= |Elems(cc)| by { SubsetCard(Elems(i), Elems(cc)); }
    if |i| == |cc| {
      assert |Elems(i)| == |Elems(cc)|;
      SubsetCard(Elems(i), Elems(cc));
      assert Elems(i) == Elems(cc);
      forall x | x in cc ensures x in chain {
        assert x in Elems(cc);
      }
    }
    if NoDup(cc) && forall x :: x in cc ==> x in chain {
      assert Elems(i) == Elems(cc);
    }
  }

  /** Appending an element that is not there keeps a sequence free of duplicates. */
  lemma NoDupSnoc<T>(s: seq<T>, x: T)
    requires NoDup(s) && x !in s
    ensures NoDup(s + [x])
  {
    forall i, j | 0 <= i < j < |s + [x]| ensures (s + [x])[i] != (s + [x])[j] {
      if j == |s| {
        assert (s + [x])[i] == s[i];
      } else {
        assert (s + [x])[i] == s[i] && (s + [x])[j] == s[j];
      }
    }
  }

  /** A subset is no larger, and a subset of equal size is the whole set. */
  lemma SubsetCard<T>(a: set<T>, b: set<T>)
    requires a <= b
    ensures |a| <= |b|
    ensures |a| == |b| ==> a == b
  {
    assert |b - a| == |b| - |a|;
    if |a| == |b| {
      assert |b - a| == 0;
      assert b - a == {};
    }
  }

  /** `_.difference(cc, list).length > 0` holds exactly when some element of `cc` is missing from `list`. */
  lemma DifferenceNonEmpty<T(!new)>(cc: seq<T>, list: seq<T>)
    ensures |Difference(cc, list)| > 0 <==> exists x :: x in cc && x !in list
  {
    if |Difference(cc, list)| > 0 {
      assert Difference(cc, list)[0] in Difference(cc, list);
    }
  }
}
