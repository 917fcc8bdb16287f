/** Python dictionaries built from literals and merges, as ordered lists of
    key/value pairs. */
module Dicts {
  /** The dictionary a list of pairs denotes: a later pair for a key
      replaces an earlier one, as in a literal or a `{**a, **b}` merge. */
  function DictOf<K(==), V>(pairs: seq<(K, V)>): (d: map<K, V>)
    ensures d.Keys == set i | 0 <= i < |pairs| :: pairs[i].0
  {
    if |pairs| == 0 then map[]
    else
      var n := |pairs| - 1;
      var d := DictOf(pairs[..n]);
      assert (set i | 0 <= i < |pairs| :: pairs[i].0) == d.Keys + {pairs[n].0} by {
        assert forall i :: 0 <= i < n ==> pairs[..n][i] == pairs[i];
      }
      d[pairs[n].0 := pairs[n].1]
  }

  /** No pair after position `i` has the key of pair `i`. */
  predicate LastWith<K(==), V>(pairs: seq<(K, V)>, i: int)
    requires 0 <= i < |pairs|
  {
    forall j :: i < j < |pairs| ==> pairs[j].0 != pairs[i].0
  }

  /** Every key occurs once. */
  predicate KeysDistinct<K(==), V>(pairs: seq<(K, V)>)
  {
    forall i, j :: 0 <= i < j < |pairs| ==> pairs[i].0 != pairs[j].0
  }

  /** The value of a key is the one of its last pair. */
  lemma {:induction false} DictOfLast<K, V>(pairs: seq<(K, V)>, i: int)
    requires 0 <= i < |pairs| && LastWith(pairs, i)
    ensures pairs[i].0 in DictOf(pairs) && DictOf(pairs)[pairs[i].0] == pairs[i].1
  {
    var n := |pairs| - 1;
    if i < n {
      assert pairs[..n][i] == pairs[i];
      assert pairs[n].0 != pairs[i].0;
      DictOfLast(pairs[..n], i);
    }
  }

  /** With distinct keys, every pair is found in the dictionary. */
  lemma DictOfDistinct<K, V>(pairs: seq<(K, V)>, i: int)
    requires 0 <= i < |pairs| && KeysDistinct(pairs)
    ensures pairs[i].0 in DictOf(pairs) && DictOf(pairs)[pairs[i].0] == pairs[i].1
  {
    DictOfLast(pairs, i);
  }
}
