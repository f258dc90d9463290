/**
  First-match-wins lookup over an ordered rule table, the discipline shared by
  the store pattern table and the store and keyword category rules: the rules are
  tried in declaration order and the first one that fires decides the result.
*/
module Rules {
  import opened Wrappers

  /** The result of the first entry whose key `hit` accepts, or None when none does. */
  function FirstMatch<K, V>(table: seq<(K, V)>, hit: K -> bool): Option<V>
  {
    if table == [] then None
    else if hit(table[0].0) then Some(table[0].1)
    else FirstMatch(table[1..], hit)
  }

  /** Entry k fires and no entry before it does. */
  ghost predicate IsFirstHit<K, V>(table: seq<(K, V)>, hit: K -> bool, k: int)
  {
    && 0 <= k < |table|
    && hit(table[k].0)
    && forall j :: 0 <= j < k ==> !hit(table[j].0)
  }

  /** The first entry that fires decides the result, whatever later entries say. */
  lemma {:induction false} FirstMatchAtFirstHit<K, V>(table: seq<(K, V)>, hit: K -> bool, k: int)
    requires IsFirstHit(table, hit, k)
    ensures FirstMatch(table, hit) == Some(table[k].1)
  {
    if k > 0 {
      assert !hit(table[0].0);
      FirstMatchAtFirstHit(table[1..], hit, k - 1);
    }
  }

  /** No result exactly when no entry fires. */
  lemma {:induction false} FirstMatchNone<K, V>(table: seq<(K, V)>, hit: K -> bool)
    ensures FirstMatch(table, hit).None? <==> forall k :: 0 <= k < |table| ==> !hit(table[k].0)
  {
    if table != [] && !hit(table[0].0) {
      FirstMatchNone(table[1..], hit);
      assert forall k :: 1 <= k < |table| ==> table[k] == table[1..][k - 1];
    }
  }

  /** A result always comes from the first entry that fires. */
  lemma {:induction false} FirstMatchSome<K, V>(table: seq<(K, V)>, hit: K -> bool) returns (k: int)
    requires FirstMatch(table, hit).Some?
    ensures IsFirstHit(table, hit, k) && FirstMatch(table, hit) == Some(table[k].1)
  {
    if hit(table[0].0) {
      k := 0;
    } else {
      var k' := FirstMatchSome(table[1..], hit);
      k := k' + 1;
      forall j | 0 <= j < k ensures !hit(table[j].0) {
        if j > 0 { assert table[j] == table[1..][j - 1]; }
      }
    }
  }

  /** Every result is the value of some entry of the table. */
  lemma FirstMatchInValues<K, V>(table: seq<(K, V)>, hit: K -> bool)
    requires FirstMatch(table, hit).Some?
    ensures exists e <- table :: e.1 == FirstMatch(table, hit).value
  {
    var k := FirstMatchSome(table, hit);
    assert table[k] in table;
  }

  /** When every entry's value lies in `allowed`, so does every result. */
  lemma {:induction false} FirstMatchWithin<K, V>(table: seq<(K, V)>, hit: K -> bool, allowed: seq<V>)
    requires forall e <- table :: e.1 in allowed
    ensures FirstMatch(table, hit).None? || FirstMatch(table, hit).value in allowed
  {
    if table != [] && !hit(table[0].0) {
      assert forall e <- table[1..] :: e in table;
      FirstMatchWithin(table[1..], hit, allowed);
    }
  }

  /** Scanning on past an entry that does not fire leaves the outcome unchanged: the step of a
      first-match loop. */
  lemma FirstMatchSkip<K, V>(table: seq<(K, V)>, hit: K -> bool, i: int)
    requires 0 <= i < |table| && !hit(table[i].0)
    ensures FirstMatch(table[i..], hit) == FirstMatch(table[i + 1..], hit)
  {
    assert table[i..][1..] == table[i + 1..];
  }

  /** When entry u fires, the first hit is at u or before it, so no later entry can decide. */
  lemma FirstHitAtMost<K, V>(table: seq<(K, V)>, hit: K -> bool, u: int) returns (k: int)
    requires 0 <= u < |table| && hit(table[u].0)
    ensures k <= u && IsFirstHit(table, hit, k) && FirstMatch(table, hit) == Some(table[k].1)
  {
    FirstMatchNone(table, hit);
    k := FirstMatchSome(table, hit);
  }
}
