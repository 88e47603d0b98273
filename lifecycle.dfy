/** The accept loop both servers run (`acceptConnections`), over the events
    it sees, and how it ends. The two servers differ only in their
    connection type and in how a connection's registry key is computed. */
module Lifecycle {
  import opened Net
  import Registry

  /** One thing that happens to the accept loop. `Stop` runs on another
      goroutine; the model places its store of the running flag between two
      steps of the loop. */
  datatype AcceptEvent<C> =
      /** `Accept` returned a connection. */
    | Accepted(conn: C)
      /** `Accept` returned an error; `isNetError` tells whether it is a `net.Error`. */
    | AcceptError(err: Errno, isNetError: bool)
      /** `Stop` cleared the running flag while `Accept` was blocked, and
          `Accept` then returned the error `err`. */
    | StopDuringAccept(err: Errno)
      /** `Stop` cleared the running flag after an iteration, before the loop
          tested it again. */
    | StopBetween

  /** How `acceptConnections` returned. */
  datatype LoopExit =
      /** It returned nil: the server is no longer running. */
    | Stopped
      /** It returned the accept error. */
    | Fatal(err: string)
      /** It panicked: the accepted connection had no remote address, so
          `RemoteAddr().String()` was called on a nil interface. */
    | Crashed
      /** The events ran out while it was still accepting. */
    | StillAccepting

  /** An event after which the loop tests the flag and goes round again.
      `key(c)` is the registry key of connection `c`, `None` when the
      connection has no remote address. */
  predicate Continues<C>(e: AcceptEvent<C>, key: C -> Option<string>)
  {
    (e.Accepted? && key(e.conn).Some?) || (e.AcceptError? && e.isNetError)
  }

  /** How the loop ends on an event after which it does not go round again. */
  function Ending<C>(e: AcceptEvent<C>, key: C -> Option<string>): (x: LoopExit)
    ensures x == StillAccepting <==> Continues(e, key)
  {
    match e
    case Accepted(c) => if key(c).Some? then StillAccepting else Crashed
    case AcceptError(err, isNetError) => if isNetError then StillAccepting else Fatal(err)
    case StopDuringAccept(_) => Stopped
    case StopBetween => Stopped
  }

  /** The accept loop started with the running flag `running` on `events`:
      how it ends, how many events it consumed, and the flag afterwards. */
  function Run<C>(running: bool, events: seq<AcceptEvent<C>>, key: C -> Option<string>): (r: (LoopExit, nat, bool))
    ensures r.1 <= |events|
  {
    if !running then (Stopped, 0, false)
    else if events == [] then (StillAccepting, 0, true)
    else if Continues(events[0], key) then
      var t := Run(true, events[1..], key);
      (t.0, t.1 + 1, t.2)
    else
      var x := Ending(events[0], key);
      (x, 1, x != Stopped)
  }

  /** Every consumed event but the last lets the loop go round again; the
      last decides how it ends; the loop is still accepting exactly when every
      event let it go round; the flag is cleared exactly when it stopped. A
      loop started stopped consumes nothing. */
  lemma {:induction false} RunSpec<C>(running: bool, events: seq<AcceptEvent<C>>, key: C -> Option<string>)
    ensures var r := Run(running, events, key);
      && (!running ==> r == (Stopped, 0, false))
      && (running ==> forall i | 0 <= i < r.1 - 1 :: Continues(events[i], key))
      && (r.0 == StillAccepting <==>
            running && r.1 == |events| && forall i | 0 <= i < |events| :: Continues(events[i], key))
      && (running && r.0 != StillAccepting ==> 1 <= r.1 && r.0 == Ending(events[r.1 - 1], key))
      && (r.2 <==> r.0 != Stopped)
  {
    if running && events != [] && Continues(events[0], key) {
      RunSpec(true, events[1..], key);
      var t := Run(true, events[1..], key);
      assert forall i | 1 <= i < |events| :: events[i] == events[1..][i - 1];
      if t.0 == StillAccepting {
        assert forall i | 0 <= i < |events| :: Continues(events[i], key) by {
          forall i | 0 <= i < |events| ensures Continues(events[i], key) {
            if i > 0 { assert events[i] == events[1..][i - 1]; }
          }
        }
      }
    }
  }

  /** The first event that does not let the loop go round again decides the
      outcome: a stop always makes the loop return nil, even when `Accept`
      failed at the same time; a non-network accept error is returned; a
      connection without a remote address crashes the loop. Network errors
      are logged and skipped. */
  lemma FirstEndingDecides<C>(events: seq<AcceptEvent<C>>, key: C -> Option<string>, j: nat)
    requires j < |events| && !Continues(events[j], key)
    requires forall i | 0 <= i < j :: Continues(events[i], key)
    ensures Run(true, events, key) == (Ending(events[j], key), j + 1, Ending(events[j], key) != Stopped)
  {
    RunSpec(true, events, key);
    var r := Run(true, events, key);
    assert r.0 != StillAccepting;
    assert r.1 - 1 <= j;
    assert !Continues(events[r.1 - 1], key);
  }

  /** The registry entries the loop stores for `events`, in order: one for
      every accepted connection that has a key. */
  function Stored<C>(events: seq<AcceptEvent<C>>, key: C -> Option<string>): (s: seq<(string, C)>)
  {
    if events == [] then []
    else
      var e := events[|events| - 1];
      var rest := Stored(events[..|events| - 1], key);
      if e.Accepted? && key(e.conn).Some? then rest + [(key(e.conn).value, e.conn)] else rest
  }

  /** A run of the loop seen after `n` events have already been consumed. */
  function Shifted(n: nat, r: (LoopExit, nat, bool)): (shifted: (LoopExit, nat, bool))
  {
    (r.0, n + r.1, r.2)
  }

  /** One iteration of the loop, as `ret` (`Some(x)` when the loop returns
      `x`, `None` when it tests the flag again) and the flag `running` after
      it, advances a run that has consumed `n` events by one event. */
  lemma Advance<C>(events: seq<AcceptEvent<C>>, n: nat, key: C -> Option<string>,
                   goal: (LoopExit, nat, bool), ret: Option<LoopExit>, running: bool)
    requires n < |events|
    requires goal == Shifted(n, Run(true, events[n..], key))
    requires ret == if Continues(events[n], key) || events[n].StopBetween? then None else Some(Ending(events[n], key))
    requires running <==> !(events[n].StopBetween? || events[n].StopDuringAccept?)
    ensures ret.None? && running ==> goal == Shifted(n + 1, Run(true, events[n + 1..], key))
    ensures ret.None? && !running ==> goal == (Stopped, n + 1, false)
    ensures ret.Some? ==> goal == (ret.value, n + 1, running)
  {
  }

  /** The registry after one more event: an accepted connection with a key
      is stored under it, any other event leaves the registry alone. */
  lemma StoreStep<C>(m: map<string, C>, events: seq<AcceptEvent<C>>, n: nat, key: C -> Option<string>)
    requires n < |events|
    ensures Registry.StoreAll(m, Stored(events[..n + 1], key)) ==
      if events[n].Accepted? && key(events[n].conn).Some? then
        Registry.StoreAll(m, Stored(events[..n], key))[key(events[n].conn).value := events[n].conn]
      else Registry.StoreAll(m, Stored(events[..n], key))
  {
    assert events[..n + 1][..n] == events[..n];
  }

  /** The loop stores only connections it accepted, each under its own key. */
  lemma {:induction false} StoredKeys<C>(events: seq<AcceptEvent<C>>, key: C -> Option<string>)
    ensures forall p | p in Stored(events, key) ::
      key(p.1) == Some(p.0) && exists i | 0 <= i < |events| :: events[i] == Accepted(p.1)
  {
    if events != [] {
      var n := |events| - 1;
      StoredKeys(events[..n], key);
      forall p | p in Stored(events, key)
        ensures key(p.1) == Some(p.0) && exists i | 0 <= i < |events| :: events[i] == Accepted(p.1)
      {
        if p in Stored(events[..n], key) {
          var i :| 0 <= i < n && events[..n][i] == Accepted(p.1);
          assert events[i] == Accepted(p.1);
        } else {
          assert events[n] == Accepted(p.1);
        }
      }
    }
  }
}
