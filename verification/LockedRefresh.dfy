/**
 Token refreshes under the lock they take: the calls of TokenRefresh
 (apps/api/src/accounting/accounting-connection.service.ts) acquiring, renewing and releasing the leases
 of RefreshLock (apps/api/src/accounting/accounting-refresh-lock.service.ts), one key per connection.
 */
module LockedRefresh {
  import opened Wrappers
  import opened Connections
  import Lock = RefreshLock
  import Refresh = TokenRefresh

  type Caller = Refresh.Caller

  /** `tokens` are the owner tokens under which calls hold their locks. */
  datatype World = World(calls: Refresh.World, keys: map<ConnectionId, Lock.State>, tokens: map<Caller, Lock.Owner>)

  const Fresh := World(Refresh.Fresh, map[], map[])

  datatype Action =
    /** A step of the calls and their surroundings that leaves the lock alone. */
    | Elsewhere(act: Refresh.Action)
    /** tryAcquire: its command may not reach Redis, and its answer may not come back. */
    | TryAcquire(a: Caller, token: Lock.Owner, reached: bool, answered: bool, timedOut: bool)
    /** A firing of the renewal timer, which runs while the lock has not been released. */
    | Renew(a: Caller)
    | Release(a: Caller, reached: bool)
    /** The process stops, and its timer with it: the key is left to run out. */
    | Die(a: Caller)
    | Tick(ms: nat)

  predicate TouchesLock(act: Refresh.Action) {
    act.Does? && (act.event.TryLock? || act.event.Release? || act.event.Die?)
  }

  function Key(w: World, id: ConnectionId): Lock.State {
    if id in w.keys then w.keys[id] else Lock.Fresh
  }

  /** The connection whose lock the call holds. */
  function Holds(w: World, a: Caller): Option<ConnectionId> {
    if a in w.calls.calls && a in w.tokens then Refresh.Section(w.calls.calls[a]) else None
  }

  predicate Acquires(w: World, act: Action)
    requires act.TryAcquire? && act.a in w.calls.calls && w.calls.calls[act.a].pc.Locking?
  {
    var key := Key(w, w.calls.calls[act.a].pc.id);
    act.reached && act.answered && act.token !in key.used && Lock.Get(key.key, key.now).None?
  }

  /** The step the calls see. */
  function Seen(w: World, act: Action): Option<Refresh.Action> {
    match act
    case Elsewhere(act) => if TouchesLock(act) then None else Some(act)
    case TryAcquire(a, _, _, _, timedOut) =>
      if a in w.calls.calls && w.calls.calls[a].pc.Locking?
      then Some(Refresh.Does(a, Refresh.TryLock(Acquires(w, act), timedOut)))
      else None
    case Release(a, _) =>
      if a in w.calls.calls && w.calls.calls[a].pc.Releasing? then Some(Refresh.Does(a, Refresh.Release)) else None
    case Die(a) => Some(Refresh.Does(a, Refresh.Die))
    case _ => None
  }

  function OnKey(w: World, id: ConnectionId, act: Lock.Action): map<ConnectionId, Lock.State> {
    w.keys[id := Lock.Step(Key(w, id), act)]
  }

  /** What the step does to the keys. */
  function Keys(w: World, act: Action): map<ConnectionId, Lock.State> {
    match act
    case Elsewhere(_) => w.keys
    case TryAcquire(a, token, reached, answered, _) =>
      if reached && a in w.calls.calls && w.calls.calls[a].pc.Locking?
      then OnKey(w, w.calls.calls[a].pc.id, Lock.Acquire(token, answered))
      else w.keys
    case Renew(a) => if Holds(w, a).Some? then OnKey(w, Holds(w, a).value, Lock.Renew(w.tokens[a])) else w.keys
    case Release(a, reached) =>
      if Holds(w, a).Some? && w.calls.calls[a].pc.Releasing?
      then OnKey(w, Holds(w, a).value, Lock.Release(w.tokens[a], reached))
      else w.keys
    case Die(a) =>
      if Holds(w, a).Some? then OnKey(w, Holds(w, a).value, Lock.Release(w.tokens[a], false)) else w.keys
    case Tick(ms) => map id | id in w.keys :: Lock.Step(w.keys[id], Lock.Tick(ms))
  }

  function Step(w: World, act: Action): World {
    var seen := Seen(w, act);
    World(
      if seen.Some? then Refresh.Step(w.calls, seen.value) else w.calls,
      Keys(w, act),
      if act.TryAcquire? && act.a in w.calls.calls && w.calls.calls[act.a].pc.Locking? && Acquires(w, act)
      then w.tokens[act.a := act.token] else w.tokens)
  }

  function Run(w: World, acts: seq<Action>): World
    decreases |acts|
  {
    if acts == [] then w else Run(Step(w, acts[0]), acts[1..])
  }

  /** The steps of the calls, in a run of both. */
  function SeenAlong(w: World, acts: seq<Action>): seq<Refresh.Action>
    decreases |acts|
  {
    if acts == [] then []
    else
      var seen := Seen(w, acts[0]);
      (if seen.Some? then [seen.value] else []) + SeenAlong(Step(w, acts[0]), acts[1..])
  }

  lemma {:induction false} RunsTheCalls(w: World, acts: seq<Action>)
    ensures Run(w, acts).calls == Refresh.Run(w.calls, SeenAlong(w, acts))
    decreases |acts|
  {
    if acts != [] {
      var seen, rest := Seen(w, acts[0]), SeenAlong(Step(w, acts[0]), acts[1..]);
      RunsTheCalls(Step(w, acts[0]), acts[1..]);
      if seen.Some? {
        assert ([seen.value] + rest)[1..] == rest;
      } else {
        assert [] + rest == rest;
      }
    }
  }

  // ----- Renewed in time -----

  /** No time passes beyond the lease of a call inside. */
  predicate Timely(w: World, act: Action) {
    act.Tick? ==> forall id :: id in w.keys ==> Lock.Timely(w.keys[id], Lock.Tick(act.ms))
  }

  predicate TimelyRun(w: World, acts: seq<Action>)
    decreases |acts|
  {
    acts == [] || (Timely(w, acts[0]) && TimelyRun(Step(w, acts[0]), acts[1..]))
  }

  /** Every call in a critical section is among the holders of its key, whose leases run. */
  ghost predicate Locked(w: World) {
    && (forall id :: Lock.Valid(Key(w, id)) && Lock.NoneLapsed(Key(w, id)))
    && (forall a :: a in w.calls.calls && Refresh.Section(w.calls.calls[a]).Some? ==>
          a in w.tokens && w.tokens[a] in Key(w, Refresh.Section(w.calls.calls[a]).value).holders)
    && Refresh.Exclusive(w.calls)
  }

  lemma KeysStayValid(w: World, act: Action, id: ConnectionId)
    requires Locked(w) && Timely(w, act)
    ensures Lock.Valid(Key(Step(w, act), id)) && Lock.NoneLapsed(Key(Step(w, act), id))
  {
    assert Lock.Valid(Key(w, id)) && Lock.NoneLapsed(Key(w, id));
  }

  predicate Takes(w: World, act: Action, b: Caller) {
    act.TryAcquire? && act.a == b && b in w.calls.calls && w.calls.calls[b].pc.Locking? && Acquires(w, act)
  }

  /** Who is in a critical section after a step: the call that took the key, or one that was there. */
  lemma InsideBefore(w: World, act: Action, b: Caller)
    requires b in Step(w, act).calls.calls && Refresh.Section(Step(w, act).calls.calls[b]).Some?
    ensures var section := Refresh.Section(Step(w, act).calls.calls[b]);
      if Takes(w, act, b) then section == Some(w.calls.calls[b].pc.id)
      else
        && b in w.calls.calls && Refresh.Section(w.calls.calls[b]) == section
        && (act.Release? && act.a == b ==> !w.calls.calls[b].pc.Releasing?)
        && (act.Die? ==> act.a != b)
  {
  }

  lemma StaysHolder(w: World, act: Action, b: Caller)
    requires Locked(w) && !Takes(w, act, b)
    requires b in Step(w, act).calls.calls && Refresh.Section(Step(w, act).calls.calls[b]).Some?
    ensures var w' := Step(w, act);
      b in w'.tokens && w'.tokens[b] in Key(w', Refresh.Section(w'.calls.calls[b]).value).holders
  {
    InsideBefore(w, act, b);
    var id := Refresh.Section(w.calls.calls[b]).value;
    assert w.tokens[b] in Key(w, id).holders;
    if (act.Release? || act.Die?) && Holds(w, act.a) == Some(id) {
      assert act.a == b;
    }
  }

  lemma StaysExclusive(w: World, act: Action)
    requires Locked(w)
    ensures Refresh.Exclusive(Step(w, act).calls)
  {
    var after := Step(w, act).calls;
    forall b, c | b in after.calls && c in after.calls && Refresh.Section(after.calls[b]).Some?
                  && Refresh.Section(after.calls[b]) == Refresh.Section(after.calls[c])
      ensures b == c
    {
      InsideBefore(w, act, b);
      InsideBefore(w, act, c);
    }
  }

  lemma StepStaysLocked(w: World, act: Action)
    requires Locked(w) && Timely(w, act)
    ensures Locked(Step(w, act))
  {
    var w' := Step(w, act);
    forall id
      ensures Lock.Valid(Key(w', id)) && Lock.NoneLapsed(Key(w', id))
    {
      KeysStayValid(w, act, id);
    }
    forall b | b in w'.calls.calls && Refresh.Section(w'.calls.calls[b]).Some?
      ensures b in w'.tokens && w'.tokens[b] in Key(w', Refresh.Section(w'.calls.calls[b]).value).holders
    {
      if Takes(w, act, b) {
        InsideBefore(w, act, b);
      } else {
        StaysHolder(w, act, b);
      }
    }
    StaysExclusive(w, act);
  }

  lemma {:induction false} TimelyRunIsExclusive(w: World, acts: seq<Action>)
    requires Locked(w) && TimelyRun(w, acts)
    ensures Refresh.ExclusiveRun(w.calls, SeenAlong(w, acts)) && Locked(Run(w, acts))
    decreases |acts|
  {
    if acts != [] {
      var seen, rest := Seen(w, acts[0]), SeenAlong(Step(w, acts[0]), acts[1..]);
      StepStaysLocked(w, acts[0]);
      TimelyRunIsExclusive(Step(w, acts[0]), acts[1..]);
      if seen.Some? {
        assert ([seen.value] + rest)[1..] == rest;
      } else {
        assert [] + rest == rest;
      }
    }
  }

  /**
   While leases are renewed before they run out the calls' critical sections never overlap, whatever Redis
   commands are lost, and so no row produces a second reconnect notification.
   */
  lemma TimelyLeasesAlertOnce(acts: seq<Action>)
    requires TimelyRun(Fresh, acts)
    ensures Refresh.ExclusiveRun(Refresh.Fresh, SeenAlong(Fresh, acts))
    ensures Refresh.AlertedOnce(Run(Fresh, acts).calls)
  {
    TimelyRunIsExclusive(Fresh, acts);
    RunsTheCalls(Fresh, acts);
    Refresh.ExclusiveRunIsGuarded(Refresh.Fresh, SeenAlong(Fresh, acts));
    Refresh.AlertsAtMostOnce(SeenAlong(Fresh, acts));
  }
}
