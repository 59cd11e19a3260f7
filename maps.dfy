/**
 * Building a lookup object from rows, as `reduce((acc, r) => { acc[r.key] = r.v; ... }, {})`
 * and `forEach(r => { m[r.key] = r.v })` do: every row is written in turn, so for a key
 * that occurs more than once the last row wins.
 */
module Maps {

  /** The object after writing every pair in order. */
  function ToMap<K, V>(pairs: seq<(K, V)>): (m: map<K, V>)
    ensures forall i :: 0 <= i < |pairs| ==> pairs[i].0 in m
    ensures forall k :: k in m ==> exists i :: 0 <= i < |pairs| && pairs[i].0 == k
  {
    if pairs == [] then map[]
    else
      var init := pairs[..|pairs| - 1];
      var m := ToMap(init);
      assert forall i :: 0 <= i < |init| ==> pairs[i] == init[i];
      m[pairs[|pairs| - 1].0 := pairs[|pairs| - 1].1]
  }

  /** A key holds the value of the last pair that names it. */
  lemma {:induction false} LastWins<K, V>(pairs: seq<(K, V)>, i: nat)
    requires i < |pairs|
    requires forall j :: i < j < |pairs| ==> pairs[j].0 != pairs[i].0
    ensures ToMap(pairs)[pairs[i].0] == pairs[i].1
  {
    if i < |pairs| - 1 {
      var init := pairs[..|pairs| - 1];
      LastWins(init, i);
    }
  }

  /** The loop that fills the object. */
  method BuildMap<K, V>(pairs: seq<(K, V)>) returns (m: map<K, V>)
    ensures m == ToMap(pairs)
  {
    m := map[];
    var i := 0;
    while i < |pairs|
      invariant 0 <= i <= |pairs|
      invariant m == ToMap(pairs[..i])
    {
      assert pairs[..i + 1][..i] == pairs[..i];
      m := m[pairs[i].0 := pairs[i].1];
      i := i + 1;
    }
    assert pairs[..i] == pairs;
  }
}
