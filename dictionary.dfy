/** Filling a plain JavaScript object used as a dictionary, `m[r.id] = value` for
    each record in turn, as `loadAllClients` (src/search.js) and the skills lookup of
    the profile page (src/profile.ts) do. */
module Dictionary {

  /** `m` after the assignments `m[k] := v` for the pairs, in order. */
  function Assigned<V>(m: map<string, V>, pairs: seq<(string, V)>): map<string, V>
  {
    if pairs == [] then m
    else
      var last := pairs[|pairs| - 1];
      Assigned(m, pairs[..|pairs| - 1])[last.0 := last.1]
  }

  /** The last position at which `k` is assigned, or -1. */
  function LastAssignment<V>(pairs: seq<(string, V)>, k: string): (r: int)
    ensures -1 <= r < |pairs|
    ensures r >= 0 ==> pairs[r].0 == k
    ensures forall i :: r < i < |pairs| ==> pairs[i].0 != k
  {
    if pairs == [] then -1
    else if pairs[|pairs| - 1].0 == k then |pairs| - 1
    else LastAssignment(pairs[..|pairs| - 1], k)
  }

  /** A key read after the loop gives the last value assigned to it, or its value
      from before the loop when it was never assigned. */
  lemma {:induction false} AssignedLookup<V>(m: map<string, V>, pairs: seq<(string, V)>, k: string)
    ensures var a, i := Assigned(m, pairs), LastAssignment(pairs, k);
      && (i >= 0 ==> k in a && a[k] == pairs[i].1)
      && (i < 0 ==> (k in a <==> k in m) && (k in m ==> a[k] == m[k]))
  {
    if pairs != [] {
      AssignedLookup(m, pairs[..|pairs| - 1], k);
    }
  }

  /** The value read for a key is the one its last assignment wrote. */
  lemma AssignedLast<V>(m: map<string, V>, pairs: seq<(string, V)>, k: string, j: int)
    requires 0 <= j < |pairs| && pairs[j].0 == k
    requires forall i :: j < i < |pairs| ==> pairs[i].0 != k
    ensures k in Assigned(m, pairs) && Assigned(m, pairs)[k] == pairs[j].1
  {
    AssignedLookup(m, pairs, k);
  }

  /** A key no pair assigns keeps its presence and value. */
  lemma AssignedUntouched<V>(m: map<string, V>, pairs: seq<(string, V)>, k: string)
    requires forall i :: 0 <= i < |pairs| ==> pairs[i].0 != k
    ensures k in Assigned(m, pairs) <==> k in m
    ensures k in m ==> Assigned(m, pairs)[k] == m[k]
  {
    AssignedLookup(m, pairs, k);
  }

  /** The keys after the loop: the earlier keys and every assigned one. */
  lemma AssignedKeys<V>(m: map<string, V>, pairs: seq<(string, V)>, k: string)
    ensures k in Assigned(m, pairs) <==> k in m || exists i :: 0 <= i < |pairs| && pairs[i].0 == k
  {
    AssignedLookup(m, pairs, k);
  }

  /** The `forEach` loop that performs the assignments. */
  method Fill<V>(m: map<string, V>, pairs: seq<(string, V)>) returns (r: map<string, V>)
    ensures r == Assigned(m, pairs)
  {
    r := m;
    var i := 0;
    while i < |pairs|
      invariant 0 <= i <= |pairs|
      invariant r == Assigned(m, pairs[..i])
    {
      assert pairs[..i + 1][..i] == pairs[..i];
      r := r[pairs[i].0 := pairs[i].1];
      i := i + 1;
    }
    assert pairs[..i] == pairs;
  }
}
