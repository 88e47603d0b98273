/** The connection registry both servers keep (a `sync.Map` from the remote
    address string to the connection): what a run of `Store` calls leaves. */
module Registry {

  /** The registry after storing `entries` in order, starting from `m`. */
  function StoreAll<C>(m: map<string, C>, entries: seq<(string, C)>): (stored: map<string, C>)
  {
    if entries == [] then m
    else StoreAll(m, entries[..|entries| - 1])[entries[|entries| - 1].0 := entries[|entries| - 1].1]
  }

  /** A key is present after the stores exactly when it was present before or
      was stored; it maps to the connection stored last under it, so a later
      connection with the same key replaces the earlier one; a key never
      stored keeps its old connection. */
  lemma {:induction false} StoreAllEntry<C>(m: map<string, C>, entries: seq<(string, C)>, k: string)
    ensures k in StoreAll(m, entries) <==> k in m || exists i | 0 <= i < |entries| :: entries[i].0 == k
    ensures forall i | 0 <= i < |entries| && entries[i].0 == k ::
      (forall j | i < j < |entries| :: entries[j].0 != k) ==> StoreAll(m, entries)[k] == entries[i].1
    ensures (forall i | 0 <= i < |entries| :: entries[i].0 != k) && k in m ==>
      StoreAll(m, entries)[k] == m[k]
  {
    if entries != [] {
      var n := |entries| - 1;
      var init := entries[..n];
      StoreAllEntry(m, init, k);
      assert forall i | 0 <= i < n :: init[i] == entries[i];
      if entries[n].0 != k {
        if k in m || exists i | 0 <= i < |entries| :: entries[i].0 == k {
          if k !in m {
            var i :| 0 <= i < |entries| && entries[i].0 == k;
            assert init[i].0 == k;
          }
        }
      }
    }
  }
}
