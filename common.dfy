/** Failure-carrying wrappers shared by every module of the model. */
module Common {

  /** An optional value (Rust's `Option`). */
  datatype Option<+T> = None | Some(value: T)

  /** A value or an error message (`anyhow::Result`, whose errors carry a message). */
  datatype Result<+T> = Ok(value: T) | Err(msg: string)

  /** Rust's `u8`, the type of the bytes the encoders work on. */
  type byte = x: int | 0 <= x < 0x100

  /** Rust's `u16`, the type of a port number. */
  type u16 = x: int | 0 <= x < 0x1_0000

  /**
   * The index of the first element of `xs` that satisfies `p`: how a prompt that
   * asks again until an answer is accepted picks its answer from the answers given.
   */
  function FirstWhere<T>(xs: seq<T>, p: T -> bool): (r: Option<nat>)
    ensures r.Some? ==> r.value < |xs| && p(xs[r.value])
    ensures r.Some? ==> forall j :: 0 <= j < r.value ==> !p(xs[j])
    ensures r.None? ==> forall j :: 0 <= j < |xs| ==> !p(xs[j])
    decreases |xs|
  {
    if xs == [] then None
    else if p(xs[0]) then Some(0)
    else
      match FirstWhere(xs[1..], p)
      case None => None
      case Some(i) => Some(i + 1)
  }

  /** `FirstWhere` finds `i` when `i` is the first index that satisfies `p`. */
  lemma FirstWhereFinds<T>(xs: seq<T>, p: T -> bool, i: nat)
    requires i < |xs| && p(xs[i])
    requires forall j :: 0 <= j < i ==> !p(xs[j])
    ensures FirstWhere(xs, p) == Some(i)
  {
  }

  /** `FirstWhere` finds nothing when no element satisfies `p`. */
  lemma FirstWhereMisses<T>(xs: seq<T>, p: T -> bool)
    requires forall j :: 0 <= j < |xs| ==> !p(xs[j])
    ensures FirstWhere(xs, p) == None
  {
  }

  /** The map left by inserting `pairs` one after the other into an empty hash map. */
  function InsertAll<K(==), V>(pairs: seq<(K, V)>): (m: map<K, V>)
    ensures |m| <= |pairs|
    decreases |pairs|
  {
    if pairs == [] then map[]
    else
      var last := pairs[|pairs| - 1];
      InsertAll(pairs[..|pairs| - 1])[last.0 := last.1]
  }

  /** Every key inserted is in the map. */
  lemma {:induction false} InsertAllHasKeys<K, V>(pairs: seq<(K, V)>)
    ensures forall i :: 0 <= i < |pairs| ==> pairs[i].0 in InsertAll(pairs)
    decreases |pairs|
  {
    if pairs != [] {
      var prefix := pairs[..|pairs| - 1];
      InsertAllHasKeys(prefix);
      assert forall i :: 0 <= i < |prefix| ==> prefix[i] == pairs[i];
    }
  }

  /** Every entry of the map was inserted by one of the pairs. */
  lemma {:induction false} InsertAllFromPairs<K, V>(pairs: seq<(K, V)>)
    ensures forall k :: k in InsertAll(pairs) ==>
      exists i :: 0 <= i < |pairs| && pairs[i].0 == k && pairs[i].1 == InsertAll(pairs)[k]
    decreases |pairs|
  {
    if pairs != [] {
      var prefix := pairs[..|pairs| - 1];
      InsertAllFromPairs(prefix);
      var m := InsertAll(pairs);
      forall k | k in m
        ensures exists i :: 0 <= i < |pairs| && pairs[i].0 == k && pairs[i].1 == m[k]
      {
        if k == pairs[|pairs| - 1].0 {
          assert pairs[|pairs| - 1].1 == m[k];
        } else {
          assert k in InsertAll(prefix);
          var i :| 0 <= i < |prefix| && prefix[i].0 == k && prefix[i].1 == InsertAll(prefix)[k];
          assert pairs[i] == prefix[i];
        }
      }
    }
  }

  /** Inserting one more pair updates the map at that pair's key. */
  lemma InsertAllGrows<K, V>(pairs: seq<(K, V)>, last: (K, V))
    ensures InsertAll(pairs + [last]) == InsertAll(pairs)[last.0 := last.1]
  {
    assert (pairs + [last])[..|pairs|] == pairs;
  }

  /** A later insertion under the same key overwrites an earlier one: the last pair with a key decides its value. */
  lemma {:induction false} InsertAllLastWins<K, V>(pairs: seq<(K, V)>, i: nat)
    requires i < |pairs|
    requires forall j :: i < j < |pairs| ==> pairs[j].0 != pairs[i].0
    ensures pairs[i].0 in InsertAll(pairs) && InsertAll(pairs)[pairs[i].0] == pairs[i].1
    decreases |pairs|
  {
    if i < |pairs| - 1 {
      var prefix := pairs[..|pairs| - 1];
      assert prefix[i] == pairs[i];
      InsertAllLastWins(prefix, i);
    }
  }
}
