/**
 * Building a map by assigning key/value pairs one after the other, as Go code
 * does with `m[k] = v` in a loop: a later pair for the same key overwrites an
 * earlier one.
 */
module Assoc {

  /** The map obtained by assigning the pairs of `ps` in order, starting empty. */
  function FromPairs<K, V>(ps: seq<(K, V)>): map<K, V>
  {
    if ps == [] then map[] else FromPairs(ps[..|ps| - 1])[ps[|ps| - 1].0 := ps[|ps| - 1].1]
  }

  /** Whether `i` is the last position of `ps` whose key is `k`. */
  ghost predicate LastWith<K, V>(ps: seq<(K, V)>, k: K, i: int)
  {
    0 <= i < |ps| && ps[i].0 == k && forall j :: i < j < |ps| ==> ps[j].0 != k
  }

  /** The keys of the map are exactly the keys that occur in the pairs. */
  lemma {:induction false} FromPairsKeys<K, V>(ps: seq<(K, V)>)
    ensures forall k :: k in FromPairs(ps) <==> exists i :: 0 <= i < |ps| && ps[i].0 == k
  {
    if ps != [] {
      var init := ps[..|ps| - 1];
      FromPairsKeys(init);
      assert FromPairs(ps) == FromPairs(init)[ps[|ps| - 1].0 := ps[|ps| - 1].1];
      forall k ensures k in FromPairs(ps) <==> exists i :: 0 <= i < |ps| && ps[i].0 == k {
        if k in FromPairs(ps) && k != ps[|ps| - 1].0 {
          var i :| 0 <= i < |init| && init[i].0 == k;
          assert ps[i].0 == k;
        }
        if k != ps[|ps| - 1].0 && (exists i :: 0 <= i < |ps| && ps[i].0 == k) {
          var i :| 0 <= i < |ps| && ps[i].0 == k;
          assert init[i].0 == k;
        }
      }
    }
  }

  /** The value of a key is the one of its last occurrence: later pairs win. */
  lemma {:induction false} FromPairsLastWins<K, V>(ps: seq<(K, V)>, k: K, i: int)
    requires LastWith(ps, k, i)
    ensures k in FromPairs(ps) && FromPairs(ps)[k] == ps[i].1
  {
    if i < |ps| - 1 {
      FromPairsLastWins(ps[..|ps| - 1], k, i);
    }
  }

  /** Appending a pair assigns it over what the earlier pairs built. */
  lemma FromPairsSnoc<K, V>(ps: seq<(K, V)>, k: K, v: V)
    ensures FromPairs(ps + [(k, v)]) == FromPairs(ps)[k := v]
  {
    assert (ps + [(k, v)])[..|ps|] == ps;
  }
}
