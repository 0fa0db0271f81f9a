/**
 getValidTokenSet and the refresh it serialises
 (apps/api/src/accounting/accounting-connection.service.ts), as a state machine.

 Any number of callers interleave at every awaited call, together with callbacks and disconnects.
 Nothing here assumes that the Redis lock works: a caller may be told it holds the lock at any time.
 What needs the lock is stated of runs in which no call goes on to refresh a row another is refreshing.
 */
module TokenRefresh {
  import opened Wrappers
  import opened Connections

  type Caller = nat

  datatype Outcome =
    | Retry
    | Return(id: ConnectionId, credential: Ciphertext)
    | NotConnected
    | NeedsReconnect
    | Transient

  /** Where a call of getValidTokenSet is: the awaited call it makes next. */
  datatype Pc =
    | Reading
    | Locking(id: ConnectionId)
    | Rereading(id: ConnectionId)
    | Refreshing(id: ConnectionId, credential: Ciphertext)
    | Writing(id: ConnectionId, credential: Ciphertext, next: Ciphertext)
    | RaceLost(id: ConnectionId)
    | MarkingError(id: ConnectionId)
    | Releasing(id: ConnectionId, alert: bool, outcome: Outcome)
    | Alerting(id: ConnectionId, outcome: Outcome)
    | Finished(outcome: Outcome)
    | Died

  datatype Call = Call(distributorId: DistributorId, pc: Pc)

  /**
   `stored` is the history of the credentials each row has held, `markedBy` who wrote ERROR on a row
   and `alertedBy` who sent the reconnect notification for it.
   */
  datatype Shared = Shared(
    rows: Rows,
    minted: seq<Minted>,
    stored: map<ConnectionId, seq<Ciphertext>>,
    markedBy: map<ConnectionId, set<Caller>>,
    alertedBy: map<ConnectionId, set<Caller>>)

  datatype Event =
    | Read(now: int, id: ConnectionId)
    | ReadNone
    | TryLock(acquired: bool, timedOut: bool)
    | Reread(now: int)
    | RefreshSucceeds(tokenSet: TokenSet)
    | RefreshFails(permanent: bool)
    | MarkError
    | MarkErrorFails
    | CompareAndSwap
    | RereadAfterLoss(now: int)
    | Release
    | Alert
    | Die

  predicate Possible(s: Shared, k: Call, e: Event) {
    match e
    case Read(_, id) => k.pc.Reading? && IsLatest(s.rows, k.distributorId, id) && s.rows[id].credential < |s.minted|
    case ReadNone => k.pc.Reading? && HasNone(s.rows, k.distributorId)
    case TryLock(_, _) => k.pc.Locking?
    case Reread(_) => k.pc.Rereading? && k.pc.id in s.rows && s.rows[k.pc.id].credential < |s.minted|
    case RefreshSucceeds(_) => k.pc.Refreshing?
    case RefreshFails(_) => k.pc.Refreshing?
    case MarkError => k.pc.MarkingError?
    case MarkErrorFails => k.pc.MarkingError?
    case CompareAndSwap => k.pc.Writing?
    case RereadAfterLoss(_) => k.pc.RaceLost? && k.pc.id in s.rows && s.rows[k.pc.id].credential < |s.minted|
    case Release => k.pc.Releasing?
    case Alert => k.pc.Alerting?
    case Die => true
  }

  function AddTo(sets: map<ConnectionId, set<Caller>>, id: ConnectionId, a: Caller): map<ConnectionId, set<Caller>> {
    sets[id := Members(sets, id) + {a}]
  }

  function Members(sets: map<ConnectionId, set<Caller>>, id: ConnectionId): set<Caller> {
    if id in sets then sets[id] else {}
  }

  function Stored(s: Shared, id: ConnectionId): seq<Ciphertext> {
    if id in s.stored then s.stored[id] else []
  }

  function Ending(k: Call, outcome: Outcome): Call {
    k.(pc := if outcome.Retry? then Reading else Finished(outcome))
  }

  function StepCall(s: Shared, a: Caller, k: Call, e: Event): (Shared, Call)
    requires Possible(s, k, e)
  {
    match e
    // getValidTokenSet
    case ReadNone => (s, k.(pc := Finished(NotConnected)))
    case Read(now, id) =>
      var row := s.rows[id];
      if row.status == DISCONNECTED then (s, k.(pc := Finished(NotConnected)))
      else if row.status != CONNECTED then (s, k.(pc := Finished(NeedsReconnect)))
      else if Usable(s.minted[row.credential].tokenSet, now) then (s, k.(pc := Finished(Return(id, row.credential))))
      else (s, k.(pc := Locking(id)))
    case TryLock(acquired, timedOut) =>
      (s, k.(pc := if acquired then Rereading(k.pc.id) else if timedOut then Finished(Transient) else Reading))
    // refreshHoldingLock
    case Reread(now) =>
      var row := s.rows[k.pc.id];
      if row.status != CONNECTED then (s, k.(pc := Releasing(k.pc.id, false, Retry)))
      else if Usable(s.minted[row.credential].tokenSet, now)
      then (s, k.(pc := Releasing(k.pc.id, false, Return(k.pc.id, row.credential))))
      else (s, k.(pc := Refreshing(k.pc.id, row.credential)))
    // performRefresh
    case RefreshSucceeds(tokenSet) =>
      (s.(minted := s.minted + [Minted(tokenSet, Some(k.pc.credential))]),
       k.(pc := Writing(k.pc.id, k.pc.credential, |s.minted|)))
    case RefreshFails(permanent) =>
      (s, k.(pc := if permanent then MarkingError(k.pc.id) else Releasing(k.pc.id, false, Transient)))
    case MarkError =>
      (s.(rows := SetStatus(s.rows, k.pc.id, ERROR), markedBy := AddTo(s.markedBy, k.pc.id, a)),
       k.(pc := Releasing(k.pc.id, true, NeedsReconnect)))
    case MarkErrorFails => (s, k.(pc := Releasing(k.pc.id, false, Transient)))
    case CompareAndSwap =>
      if CanSwap(s.rows, k.pc.id, k.pc.credential)
      then (s.(rows := Swap(s.rows, k.pc.id, k.pc.next),
               stored := s.stored[k.pc.id := Stored(s, k.pc.id) + [k.pc.next]]),
            k.(pc := Releasing(k.pc.id, false, Return(k.pc.id, k.pc.next))))
      else (s, k.(pc := RaceLost(k.pc.id)))
    case RereadAfterLoss(now) =>
      var row := s.rows[k.pc.id];
      var usable := row.status == CONNECTED && Usable(s.minted[row.credential].tokenSet, now);
      (s, k.(pc := Releasing(k.pc.id, false, if usable then Return(k.pc.id, row.credential) else Transient)))
    // the finally block
    case Release =>
      if k.pc.alert then (s, k.(pc := Alerting(k.pc.id, k.pc.outcome))) else (s, Ending(k, k.pc.outcome))
    case Alert =>
      (s.(alertedBy := AddTo(s.alertedBy, k.pc.id, a)), Ending(k, k.pc.outcome))
    case Die => (s, k.(pc := Died))
  }

  // ----- Any number of callers, callbacks and disconnects -----

  datatype World = World(shared: Shared, calls: map<Caller, Call>)

  const Fresh := World(Shared(map[], [], map[], map[], map[]), map[])

  datatype Action =
    | Start(a: Caller, distributorId: DistributorId)
    | Does(a: Caller, event: Event)
    /** A callback's transaction: retire some of the distributor's rows and add a CONNECTED one. */
    | Connect(id: ConnectionId, distributorId: DistributorId, retired: set<ConnectionId>, tokenSet: TokenSet, now: int)
    /** A disconnect's update by primary key. */
    | Disconnect(id: ConnectionId)

  function Step(w: World, act: Action): World {
    match act
    case Start(a, distributorId) =>
      if a in w.calls then w else w.(calls := w.calls[a := Call(distributorId, Reading)])
    case Does(a, e) =>
      if a !in w.calls || !Possible(w.shared, w.calls[a], e) then w
      else
        var (shared, call) := StepCall(w.shared, a, w.calls[a], e);
        World(shared, w.calls[a := call])
    case Connect(id, distributorId, retired, tokenSet, now) =>
      if id in w.shared.rows then w
      else
        var s := w.shared;
        w.(shared := s.(
          rows := Retire(s.rows, retired)[id := Connection(distributorId, CONNECTED, |s.minted|, now)],
          minted := s.minted + [Minted(tokenSet, None)],
          stored := s.stored[id := [|s.minted|]]))
    case Disconnect(id) => w.(shared := w.shared.(rows := SetStatus(w.shared.rows, id, DISCONNECTED)))
  }

  function Run(w: World, acts: seq<Action>): World
    decreases |acts|
  {
    if acts == [] then w else Run(Step(w, acts[0]), acts[1..])
  }

  // ----- One chain of credentials per connection -----

  /** The i-th credential was obtained by refreshing exactly the one before it. */
  ghost predicate Succeeds(history: seq<Ciphertext>, minted: seq<Minted>, i: nat)
    requires 0 < i < |history|
  {
    history[i] < |minted| && minted[history[i]].refreshedFrom == Some(history[i - 1])
  }

  /** A first credential, and each later one obtained by refreshing exactly the one before it. */
  ghost predicate Chain(history: seq<Ciphertext>, minted: seq<Minted>) {
    && |history| > 0
    && history[0] < |minted| && minted[history[0]].refreshedFrom == None
    && forall i :: 0 < i < |history| ==> Succeeds(history, minted, i)
  }

  lemma ChainMinted(history: seq<Ciphertext>, minted: seq<Minted>, i: nat)
    requires Chain(history, minted) && i < |history|
    ensures history[i] < |minted|
  {
    if i > 0 { assert Succeeds(history, minted, i); }
  }

  lemma ChainStays(history: seq<Ciphertext>, minted: seq<Minted>, more: seq<Minted>)
    requires Chain(history, minted) && minted <= more
    ensures Chain(history, more)
  {
    forall i | 0 < i < |history|
      ensures Succeeds(history, more, i)
    {
      assert Succeeds(history, minted, i);
    }
  }

  lemma ChainAppend(history: seq<Ciphertext>, minted: seq<Minted>, next: Ciphertext)
    requires Chain(history, minted) && next < |minted|
    requires minted[next].refreshedFrom == Some(history[|history| - 1])
    ensures Chain(history + [next], minted)
  {
    forall i | 0 < i < |history| + 1
      ensures Succeeds(history + [next], minted, i)
    {
      if i < |history| { assert Succeeds(history, minted, i); }
    }
  }

  ghost predicate ValidRow(s: Shared, id: ConnectionId) {
    && id in s.rows && id in s.stored
    && Chain(s.stored[id], s.minted)
    && s.rows[id].credential == s.stored[id][|s.stored[id]| - 1]
  }

  ghost predicate ValidOutcome(s: Shared, outcome: Outcome) {
    outcome.Return? ==> outcome.credential in Stored(s, outcome.id)
  }

  ghost predicate ValidCall(s: Shared, a: Caller, k: Call) {
    match k.pc
    case Refreshing(id, credential) => id in s.rows && credential < |s.minted| && credential in Stored(s, id)
    case Writing(id, credential, next) =>
      && id in s.rows && credential < |s.minted| && credential in Stored(s, id)
      && next < |s.minted| && s.minted[next].refreshedFrom == Some(credential)
    case MarkingError(id) => id in s.rows
    case RaceLost(id) => id in s.rows
    case Releasing(id, alert, outcome) => id in s.rows && ValidOutcome(s, outcome)
    case Alerting(id, outcome) => id in s.rows && ValidOutcome(s, outcome)
    case Finished(outcome) => ValidOutcome(s, outcome)
    case Locking(id) => id in s.rows
    case Rereading(id) => id in s.rows
    case _ => true
  }

  ghost predicate Valid(w: World) {
    && w.shared.rows.Keys == w.shared.stored.Keys
    && (forall id :: id in w.shared.rows ==> ValidRow(w.shared, id))
    && (forall a :: a in w.calls ==> ValidCall(w.shared, a, w.calls[a]))
  }

  /** Rows are never deleted, minted credentials never change, and histories only grow. */
  ghost predicate Extends(s: Shared, s': Shared) {
    && s.rows.Keys <= s'.rows.Keys
    && s.minted <= s'.minted
    && (forall id :: id in s.stored ==> id in s'.stored && s.stored[id] <= s'.stored[id])
  }

  lemma CallStepExtends(s: Shared, a: Caller, k: Call, e: Event)
    requires s.rows.Keys == s.stored.Keys && ValidCall(s, a, k) && Possible(s, k, e)
    ensures var s' := StepCall(s, a, k, e).0;
            Extends(s, s') && s'.rows.Keys == s'.stored.Keys == s.rows.Keys
  {
  }

  lemma CallStepKeepsRow(s: Shared, a: Caller, k: Call, e: Event, id: ConnectionId)
    requires ValidCall(s, a, k) && Possible(s, k, e) && ValidRow(s, id)
    ensures ValidRow(StepCall(s, a, k, e).0, id)
  {
    var s' := StepCall(s, a, k, e).0;
    ChainStays(s.stored[id], s.minted, s'.minted);
    if s'.stored[id] != s.stored[id] { ChainAppend(s.stored[id], s.minted, k.pc.next); }
  }

  lemma CallStepKeepsCall(s: Shared, a: Caller, k: Call, e: Event)
    requires s.rows.Keys == s.stored.Keys && (forall id :: id in s.rows ==> ValidRow(s, id))
    requires ValidCall(s, a, k) && Possible(s, k, e)
    ensures var (s', k') := StepCall(s, a, k, e); ValidCall(s', a, k')
  {
    if e.CompareAndSwap? && CanSwap(s.rows, k.pc.id, k.pc.credential) {
      var s' := StepCall(s, a, k, e).0;
      assert s'.stored[k.pc.id][|s.stored[k.pc.id]|] == k.pc.next;
    }
  }

  lemma OthersStayValid(s: Shared, s': Shared, b: Caller, k: Call)
    requires ValidCall(s, b, k) && Extends(s, s')
    ensures ValidCall(s', b, k)
  {
  }

  lemma ConnectKeepsRow(w: World, act: Action, id: ConnectionId)
    requires act.Connect? || act.Disconnect?
    requires id in w.shared.rows ==> ValidRow(w.shared, id)
    requires id in Step(w, act).shared.rows
    ensures ValidRow(Step(w, act).shared, id)
  {
    if id in w.shared.rows { ChainStays(w.shared.stored[id], w.shared.minted, Step(w, act).shared.minted); }
  }

  lemma ConnectExtends(w: World, act: Action)
    requires act.Connect? || act.Disconnect?
    requires w.shared.rows.Keys == w.shared.stored.Keys
    ensures Extends(w.shared, Step(w, act).shared)
    ensures Step(w, act).shared.rows.Keys == Step(w, act).shared.stored.Keys
  {
  }

  lemma StepKeepsValid(w: World, act: Action)
    requires Valid(w)
    ensures Valid(Step(w, act)) && Extends(w.shared, Step(w, act).shared)
  {
    var w' := Step(w, act);
    match act
    case Start(_, _) =>
    case Does(a, e) =>
      if a in w.calls && Possible(w.shared, w.calls[a], e) {
        CallStepExtends(w.shared, a, w.calls[a], e);
        CallStepKeepsCall(w.shared, a, w.calls[a], e);
        forall id | id in w'.shared.rows ensures ValidRow(w'.shared, id) {
          CallStepKeepsRow(w.shared, a, w.calls[a], e, id);
        }
        forall b | b in w'.calls && b != a ensures ValidCall(w'.shared, b, w'.calls[b]) {
          OthersStayValid(w.shared, w'.shared, b, w.calls[b]);
        }
      }
    case _ =>
      ConnectExtends(w, act);
      forall id | id in w'.shared.rows ensures ValidRow(w'.shared, id) {
        ConnectKeepsRow(w, act, id);
      }
      forall b | b in w'.calls ensures ValidCall(w'.shared, b, w'.calls[b]) {
        OthersStayValid(w.shared, w'.shared, b, w.calls[b]);
      }
  }

  lemma {:induction false} RunKeepsValid(w: World, acts: seq<Action>)
    requires Valid(w)
    ensures Valid(Run(w, acts)) && Extends(w.shared, Run(w, acts).shared)
    decreases |acts|
  {
    if acts != [] {
      StepKeepsValid(w, acts[0]);
      RunKeepsValid(Step(w, acts[0]), acts[1..]);
    }
  }

  /** In every run the credentials a connection has held form one chain, ending in the one it holds. */
  lemma CredentialsFormOneChain(acts: seq<Action>, id: ConnectionId)
    requires id in Run(Fresh, acts).shared.rows
    ensures var s := Run(Fresh, acts).shared;
            && id in s.stored && Chain(s.stored[id], s.minted)
            && s.rows[id].credential == s.stored[id][|s.stored[id]| - 1]
  {
    RunKeepsValid(Fresh, acts);
    assert ValidRow(Run(Fresh, acts).shared, id);
  }

  /** The answer a call is carrying out of its critical section, or has ended with. */
  function Carried(k: Call): Option<Outcome> {
    match k.pc
    case Releasing(_, _, outcome) => Some(outcome)
    case Alerting(_, outcome) => Some(outcome)
    case Finished(outcome) => Some(outcome)
    case _ => None
  }

  /** The moment of a step that reads the clock. */
  function ReadsAt(e: Event): Option<int> {
    match e
    case Read(now, _) => Some(now)
    case Reread(now) => Some(now)
    case RereadAfterLoss(now) => Some(now)
    case _ => None
  }

  /**
   In every run, at the step where a call settles on a credential to hand back, the credential is the
   one current in a CONNECTED row: read there with more than five minutes to live, or just stored by
   this call in place of the one it refreshed.
   */
  lemma ReturnsOnlyCurrent(acts: seq<Action>, a: Caller, e: Event)
    requires var w := Run(Fresh, acts);
             a in w.calls && Carried(w.calls[a]).None? && Possible(w.shared, w.calls[a], e)
    requires var k := Step(Run(Fresh, acts), Does(a, e)).calls[a];
             Carried(k).Some? && Carried(k).value.Return?
    ensures var before := Run(Fresh, acts).shared;
            var after := Step(Run(Fresh, acts), Does(a, e));
            var id, c := Carried(after.calls[a]).value.id, Carried(after.calls[a]).value.credential;
            && id in after.shared.rows && after.shared.rows[id].status == CONNECTED
            && after.shared.rows[id].credential == c
            && c < |after.shared.minted|
            && (if ReadsAt(e).Some?
                then after.shared == before
                     && after.shared.minted[c].tokenSet.expiresAt > ReadsAt(e).value + REFRESH_BUFFER_MS
                else id in before.rows && after.shared.minted[c].refreshedFrom == Some(before.rows[id].credential))
  {
    var w := Run(Fresh, acts);
    RunKeepsValid(Fresh, acts);
    assert ValidCall(w.shared, a, w.calls[a]);
  }

  /** A refreshed token set is encrypted after the one it came from. */
  ghost predicate MintedInOrder(minted: seq<Minted>) {
    forall c :: 0 <= c < |minted| && minted[c].refreshedFrom.Some? ==> minted[c].refreshedFrom.value < c
  }

  lemma {:induction false} RunKeepsMintedInOrder(w: World, acts: seq<Action>)
    requires Valid(w) && MintedInOrder(w.shared.minted)
    ensures MintedInOrder(Run(w, acts).shared.minted)
    decreases |acts|
  {
    if acts != [] {
      StepKeepsValid(w, acts[0]);
      StepKeepsMintedInOrder(w, acts[0]);
      RunKeepsMintedInOrder(Step(w, acts[0]), acts[1..]);
    }
  }

  lemma StepKeepsMintedInOrder(w: World, act: Action)
    requires Valid(w) && MintedInOrder(w.shared.minted)
    ensures MintedInOrder(Step(w, act).shared.minted)
  {
    if act.Does? && act.a in w.calls {
      assert ValidCall(w.shared, act.a, w.calls[act.a]);
    }
  }

  lemma {:induction false} ChainIncreases(history: seq<Ciphertext>, minted: seq<Minted>, i: nat, j: nat)
    requires Chain(history, minted) && MintedInOrder(minted) && i < j < |history|
    ensures history[i] < history[j]
    decreases j - i
  {
    assert Succeeds(history, minted, j);
    if i + 1 < j {
      ChainIncreases(history, minted, i, j - 1);
    }
  }

  lemma ReplacedStaysReplaced(s: Shared, s': Shared, id: ConnectionId, c: Ciphertext)
    requires ValidRow(s, id) && ValidRow(s', id) && Extends(s, s') && MintedInOrder(s'.minted)
    requires c in s.stored[id] && s.rows[id].credential != c
    ensures s'.rows[id].credential != c
  {
    var history := s'.stored[id];
    var i :| 0 <= i < |s.stored[id]| && s.stored[id][i] == c;
    assert history[i] == c && i < |s.stored[id]| - 1;
    ChainIncreases(history, s'.minted, i, |history| - 1);
  }

  /**
   A credential that has been replaced is never stored again, so a write conditional on it can
   never succeed late: the compare-and-swap has no ABA.
   */
  lemma ReplacedForGood(acts: seq<Action>, later: seq<Action>, id: ConnectionId, c: Ciphertext)
    requires var s := Run(Fresh, acts).shared;
             id in s.rows && c in Stored(s, id) && s.rows[id].credential != c
    ensures var s := Run(Run(Fresh, acts), later).shared; id in s.rows && s.rows[id].credential != c
  {
    var w := Run(Fresh, acts);
    RunKeepsValid(Fresh, acts);
    RunKeepsMintedInOrder(Fresh, acts);
    RunKeepsValid(w, later);
    RunKeepsMintedInOrder(w, later);
    assert ValidRow(w.shared, id) && ValidRow(Run(w, later).shared, id);
    ReplacedStaysReplaced(w.shared, Run(w, later).shared, id, c);
  }

  /**
   A writer that lost the race changes nothing, and hands back only what is stored at that moment,
   and only if it still has more than five minutes to live.
   */
  lemma LosingWriter(s: Shared, a: Caller, k: Call, now: int)
    requires k.pc.Writing? && !CanSwap(s.rows, k.pc.id, k.pc.credential)
    requires Possible(s, k, CompareAndSwap)
    ensures var (s', k') := StepCall(s, a, k, CompareAndSwap);
            && s' == s && k'.pc == RaceLost(k.pc.id)
            && (Possible(s, k', RereadAfterLoss(now)) ==>
                  var (s'', k'') := StepCall(s, a, k', RereadAfterLoss(now));
                  && s'' == s && k''.pc.Releasing? && !k''.pc.alert
                  && (k''.pc.outcome.Return? ==>
                        && k''.pc.outcome == Return(k.pc.id, s.rows[k.pc.id].credential)
                        && s.rows[k.pc.id].status == CONNECTED
                        && s.minted[s.rows[k.pc.id].credential].tokenSet.expiresAt > now + REFRESH_BUFFER_MS)
                  && (!k''.pc.outcome.Return? ==> k''.pc.outcome == Transient))
  {
  }

  /** The credential is what refreshes of a live connection start from. */
  ghost predicate IsCurrent(s: Shared, id: ConnectionId, c: Ciphertext) {
    id in s.rows && s.rows[id].status == CONNECTED && s.rows[id].credential == c
  }

  lemma NotCurrentForGood(acts: seq<Action>, later: seq<Action>, id: ConnectionId, c: Ciphertext)
    requires var s := Run(Fresh, acts).shared; id in s.rows && c in Stored(s, id) && !IsCurrent(s, id, c)
    ensures !IsCurrent(Run(Run(Fresh, acts), later).shared, id, c)
  {
    if Run(Fresh, acts).shared.rows[id].status != CONNECTED {
      NeverReconnects(Run(Fresh, acts), later, id);
    } else {
      ReplacedForGood(acts, later, id, c);
    }
  }

  lemma RefreshIsStored(w: World, a: Caller)
    requires Valid(w) && MintedInOrder(w.shared.minted) && a in w.calls && w.calls[a].pc.Writing?
    ensures var s, s' := w.shared, Step(w, Does(a, CompareAndSwap)).shared;
            var Writing(id, c, next) := w.calls[a].pc;
            && id in s.stored && id in s'.stored && c in s'.stored[id] && !IsCurrent(s', id, c)
            && (IsCurrent(s, id, c) ==>
                  && IsCurrent(s', id, next) && s'.stored[id] == s.stored[id] + [next]
                  && Step(w, Does(a, CompareAndSwap)).calls[a].pc == Releasing(id, false, Return(id, next)))
            && (!IsCurrent(s, id, c) ==> s' == s && Step(w, Does(a, CompareAndSwap)).calls[a].pc == RaceLost(id))
  {
    assert ValidCall(w.shared, a, w.calls[a]);
  }

  /**
   A refreshed credential is not thrown away. The write stores it, and the call hands it back, exactly
   when the credential it was refreshed from is still current; and whichever way the write went, that
   spent credential is not current at any later moment of the run.
   */
  lemma RefreshReplacesWhatItSpent(acts: seq<Action>, a: Caller, later: seq<Action>)
    requires var w := Run(Fresh, acts); a in w.calls && w.calls[a].pc.Writing?
    ensures var w := Run(Fresh, acts);
            var stored := Step(w, Does(a, CompareAndSwap));
            var Writing(id, c, next) := w.calls[a].pc;
            && (IsCurrent(w.shared, id, c) ==>
                  IsCurrent(stored.shared, id, next) && Carried(stored.calls[a]) == Some(Return(id, next)))
            && (!IsCurrent(w.shared, id, c) ==> stored.shared == w.shared && stored.calls[a].pc == RaceLost(id))
            && !IsCurrent(Run(stored, later).shared, id, c)
  {
    var w := Run(Fresh, acts);
    RunKeepsValid(Fresh, acts);
    RunKeepsMintedInOrder(Fresh, acts);
    RefreshIsStored(w, a);
    RunAppend(Fresh, acts, [Does(a, CompareAndSwap)]);
    assert Run(w, [Does(a, CompareAndSwap)]) == Step(w, Does(a, CompareAndSwap));
    NotCurrentForGood(acts + [Does(a, CompareAndSwap)], later, w.calls[a].pc.id, w.calls[a].pc.credential);
  }

  /** The row is alive, with at most five minutes left of its credential. */
  ghost predicate IsDue(s: Shared, id: ConnectionId, now: int) {
    && id in s.rows && s.rows[id].status == CONNECTED && s.rows[id].credential < |s.minted|
    && s.minted[s.rows[id].credential].tokenSet.expiresAt <= now + REFRESH_BUFFER_MS
  }

  /**
   What a call does about the row it reads, whatever its status: a broken one is told apart from one
   that was disconnected, and only a live one in its last five minutes is taken further.
   */
  lemma ReadingDecides(s: Shared, a: Caller, k: Call, now: int, id: ConnectionId)
    requires Possible(s, k, Read(now, id))
    ensures var (s', k') := StepCall(s, a, k, Read(now, id));
            && s' == s
            && (k'.pc == Finished(NotConnected) <==> s.rows[id].status == DISCONNECTED)
            && (k'.pc == Finished(NeedsReconnect) <==> s.rows[id].status == ERROR || s.rows[id].status == REVOKED)
            && (k'.pc == Locking(id) <==> IsDue(s, id, now))
            && (k'.pc == Finished(Return(id, s.rows[id].credential)) <==>
                  s.rows[id].status == CONNECTED && !IsDue(s, id, now))
  {
  }

  /** Without the lock a call goes round again until its deadline, and then gives up. */
  lemma WaitingEnds(s: Shared, a: Caller, k: Call, timedOut: bool)
    requires Possible(s, k, TryLock(false, timedOut))
    ensures StepCall(s, a, k, TryLock(false, timedOut)).0 == s
    ensures StepCall(s, a, k, TryLock(false, timedOut)).1.pc == if timedOut then Finished(Transient) else Reading
  {
  }

  /** From a live row in its last minutes to the provider, in three steps with nothing in between. */
  lemma DueIsRefreshing(w: World, a: Caller, now: int, id: ConnectionId)
    requires a in w.calls && w.calls[a].pc == Reading && IsLatest(w.shared.rows, w.calls[a].distributorId, id)
    requires IsDue(w.shared, id, now)
    ensures var w' := Step(Step(Step(w, Does(a, Read(now, id))), Does(a, TryLock(true, false))), Does(a, Reread(now)));
            && w'.shared == w.shared && a in w'.calls
            && w'.calls[a].pc == Refreshing(id, w.shared.rows[id].credential)
  {
    ReadingDecides(w.shared, a, w.calls[a], now, id);
    var locking := Step(w, Does(a, Read(now, id)));
    assert locking.calls[a].pc == Locking(id) && locking.shared == w.shared;
    var rereading := Step(locking, Does(a, TryLock(true, false)));
    assert rereading.calls[a].pc == Rereading(id) && rereading.shared == w.shared;
  }

  /**
   A call that has the lock and the provider's answer, with nothing in between, leaves the refreshed
   credential in the row and hands it back.
   */
  lemma AloneItRefreshes(w: World, a: Caller, now: int, id: ConnectionId, tokenSet: TokenSet)
    requires a in w.calls && w.calls[a].pc == Reading && IsLatest(w.shared.rows, w.calls[a].distributorId, id)
    requires IsDue(w.shared, id, now)
    ensures var refreshing :=
              Step(Step(Step(w, Does(a, Read(now, id))), Does(a, TryLock(true, false))), Does(a, Reread(now)));
            var stored := Step(Step(refreshing, Does(a, RefreshSucceeds(tokenSet))), Does(a, CompareAndSwap));
            var done := Step(stored, Does(a, Release));
            var next := |w.shared.minted|;
            && a in done.calls && done.calls[a].pc == Finished(Return(id, next))
            && IsCurrent(done.shared, id, next)
            && done.shared.minted == w.shared.minted + [Minted(tokenSet, Some(w.shared.rows[id].credential))]
  {
    DueIsRefreshing(w, a, now, id);
    var refreshing := Step(Step(Step(w, Does(a, Read(now, id))), Does(a, TryLock(true, false))), Does(a, Reread(now)));
    var writing := Step(refreshing, Does(a, RefreshSucceeds(tokenSet)));
    assert writing.calls[a].pc == Writing(id, w.shared.rows[id].credential, |w.shared.minted|);
    assert writing.shared.rows == w.shared.rows;
    var stored := Step(writing, Does(a, CompareAndSwap));
    assert stored.calls[a].pc == Releasing(id, false, Return(id, |w.shared.minted|));
  }

  // ----- The life of a connection row -----

  /** A row stays with its distributor. */
  lemma StepKeepsDistributor(w: World, act: Action, id: ConnectionId)
    requires id in w.shared.rows
    ensures id in Step(w, act).shared.rows
    ensures Step(w, act).shared.rows[id].distributorId == w.shared.rows[id].distributorId
  {
  }

  lemma StepNeverReconnects(w: World, act: Action, id: ConnectionId)
    requires id in w.shared.rows && w.shared.rows[id].status != CONNECTED
    ensures id in Step(w, act).shared.rows && Step(w, act).shared.rows[id].status != CONNECTED
  {
  }

  /** No row ever returns to CONNECTED after leaving it. */
  lemma {:induction false} NeverReconnects(w: World, acts: seq<Action>, id: ConnectionId)
    requires id in w.shared.rows && w.shared.rows[id].status != CONNECTED
    ensures id in Run(w, acts).shared.rows && Run(w, acts).shared.rows[id].status != CONNECTED
    decreases |acts|
  {
    if acts != [] {
      StepNeverReconnects(w, acts[0], id);
      NeverReconnects(Step(w, acts[0]), acts[1..], id);
    }
  }

  /** The connection whose critical section a call is in. */
  function Section(k: Call): Option<ConnectionId> {
    match k.pc
    case Rereading(id) => Some(id)
    case Refreshing(id, _) => Some(id)
    case Writing(id, _, _) => Some(id)
    case RaceLost(id) => Some(id)
    case MarkingError(id) => Some(id)
    case Releasing(id, _, _) => Some(id)
    case _ => None
  }

  ghost predicate Exclusive(w: World) {
    forall a, b | a in w.calls && b in w.calls ::
      Section(w.calls[a]).Some? && Section(w.calls[a]) == Section(w.calls[b]) ==> a == b
  }

  /** Critical sections of one connection never overlap, all along the run. */
  ghost predicate ExclusiveRun(w: World, acts: seq<Action>)
    decreases |acts|
  {
    Exclusive(w) && (acts == [] || ExclusiveRun(Step(w, acts[0]), acts[1..]))
  }

  /** The call has decided, under the lock, that the connection is alive and must be refreshed. */
  predicate Committed(k: Call, id: ConnectionId) {
    (k.pc.Refreshing? || k.pc.MarkingError?) && k.pc.id == id
  }

  /**
   The one step the promise of a single alert relies on: a call that goes on to refresh a row, having
   re-read it under the lock, finds no other call committed to it.
   */
  ghost predicate Guarded(w: World, act: Action) {
    GoesOnToRefresh(w, act) ==> forall b :: b in w.calls && b != act.a ==> !Committed(w.calls[b], w.calls[act.a].pc.id)
  }

  /** The call re-reads a row that is CONNECTED with a token to refresh. */
  predicate GoesOnToRefresh(w: World, act: Action) {
    && act.Does? && act.a in w.calls && act.event.Reread? && Possible(w.shared, w.calls[act.a], act.event)
    && var row := w.shared.rows[w.calls[act.a].pc.id];
    row.status == CONNECTED && !Usable(w.shared.minted[row.credential].tokenSet, act.event.now)
  }

  ghost predicate GuardedRun(w: World, acts: seq<Action>)
    decreases |acts|
  {
    acts == [] || (Guarded(w, acts[0]) && GuardedRun(Step(w, acts[0]), acts[1..]))
  }

  /** Critical sections that do not overlap are guarded; so are overlaps with a call that is past its refresh. */
  lemma {:induction false} ExclusiveRunIsGuarded(w: World, acts: seq<Action>)
    requires ExclusiveRun(w, acts)
    ensures GuardedRun(w, acts)
    decreases |acts|
  {
    if acts != [] {
      if GoesOnToRefresh(w, acts[0]) {
        forall b | b in w.calls && b != acts[0].a
          ensures !Committed(w.calls[b], w.calls[acts[0].a].pc.id)
        {
          assert Section(w.calls[acts[0].a]).Some?;
        }
      }
      ExclusiveRunIsGuarded(Step(w, acts[0]), acts[1..]);
    }
  }

  ghost predicate OneCommitted(w: World) {
    forall a, b, id | a in w.calls && b in w.calls ::
      Committed(w.calls[a], id) && Committed(w.calls[b], id) ==> a == b
  }

  lemma GuardedStepKeepsOneCommitted(w: World, act: Action)
    requires OneCommitted(w) && Guarded(w, act)
    ensures OneCommitted(Step(w, act))
  {
    var w' := Step(w, act);
    forall a, b, id | a in w'.calls && b in w'.calls && Committed(w'.calls[a], id) && Committed(w'.calls[b], id)
      ensures a == b
    {
    }
  }

  ghost predicate AlertOwner(s: Shared, a: Caller, k: Call) {
    && (k.pc.Releasing? && k.pc.alert ==> a in Members(s.markedBy, k.pc.id) && k.pc.outcome == NeedsReconnect)
    && (k.pc.Alerting? ==> a in Members(s.markedBy, k.pc.id) && k.pc.outcome == NeedsReconnect)
    && (forall id :: Committed(k, id) ==>
          id in s.rows && s.rows[id].status != ERROR && Members(s.markedBy, id) == {})
    && ((exists id :: a in Members(s.alertedBy, id)) ==> k.pc.Finished? || k.pc.Died?)
  }

  /** At most one call has written ERROR on a row; only such a call alerts, and then it is over. */
  ghost predicate Alerts(w: World) {
    && (forall id :: Members(w.shared.alertedBy, id) <= Members(w.shared.markedBy, id) <= w.calls.Keys)
    && (forall id, a, b :: a in Members(w.shared.markedBy, id) && b in Members(w.shared.markedBy, id) ==> a == b)
    && (forall id :: Members(w.shared.markedBy, id) != {} ==>
          id in w.shared.rows && w.shared.rows[id].status != CONNECTED)
    && (forall a :: a in w.calls ==> AlertOwner(w.shared, a, w.calls[a]))
  }

  /** A step of another call that does not mark a row this one is committed to. */
  lemma OthersKeepAlertOwner(s: Shared, a: Caller, k: Call, e: Event, b: Caller, other: Call)
    requires Possible(s, k, e) && a != b && AlertOwner(s, b, other)
    requires e.MarkError? ==> !Committed(other, k.pc.id)
    ensures AlertOwner(StepCall(s, a, k, e).0, b, other)
  {
    var s' := StepCall(s, a, k, e).0;
    forall id
      ensures b in Members(s'.markedBy, id) <==> b in Members(s.markedBy, id)
      ensures b in Members(s'.alertedBy, id) <==> b in Members(s.alertedBy, id)
    {
    }
    forall id | Committed(other, id)
      ensures id in s'.rows && s'.rows[id].status != ERROR && Members(s'.markedBy, id) == {}
    {
    }
  }

  lemma CallerKeepsAlertOwner(s: Shared, a: Caller, k: Call, e: Event)
    requires Possible(s, k, e) && ValidCall(s, a, k) && AlertOwner(s, a, k)
    requires forall id :: Members(s.markedBy, id) != {} ==> id in s.rows && s.rows[id].status != CONNECTED
    ensures var (s', k') := StepCall(s, a, k, e); AlertOwner(s', a, k')
  {
    var (s', k') := StepCall(s, a, k, e);
    forall id
      ensures a in Members(s'.alertedBy, id) <==> a in Members(s.alertedBy, id) || (e.Alert? && k.pc.id == id)
    {
    }
  }

  lemma MarkedAfter(s: Shared, a: Caller, k: Call, e: Event, id: ConnectionId)
    requires Possible(s, k, e)
    ensures var s' := StepCall(s, a, k, e).0;
            && Members(s'.markedBy, id) == Members(s.markedBy, id) + (if e.MarkError? && k.pc.id == id then {a} else {})
            && Members(s'.alertedBy, id) == Members(s.alertedBy, id) + (if e.Alert? && k.pc.id == id then {a} else {})
            && (id in s.rows ==>
                  && id in s'.rows
                  && (s.rows[id].status != CONNECTED ==> s'.rows[id].status != CONNECTED)
                  && (e.MarkError? && k.pc.id == id ==> s'.rows[id].status == ERROR))
  {
  }

  lemma CallKeepsAlerts(w: World, a: Caller, e: Event)
    requires Valid(w) && Alerts(w) && OneCommitted(w) && a in w.calls && Possible(w.shared, w.calls[a], e)
    ensures Alerts(Step(w, Does(a, e)))
  {
    var k := w.calls[a];
    var w' := Step(w, Does(a, e));
    assert ValidCall(w.shared, a, k) && AlertOwner(w.shared, a, k);
    forall id
      ensures Members(w'.shared.alertedBy, id) <= Members(w'.shared.markedBy, id) <= w'.calls.Keys
      ensures Members(w'.shared.markedBy, id) != {} ==>
                id in w'.shared.rows && w'.shared.rows[id].status != CONNECTED
      ensures forall c, d :: c in Members(w'.shared.markedBy, id) && d in Members(w'.shared.markedBy, id) ==> c == d
    {
      MarkedAfter(w.shared, a, k, e, id);
      assert e.MarkError? && k.pc.id == id ==> Committed(k, id);
    }
    CallerKeepsAlertOwner(w.shared, a, k, e);
    forall b | b in w'.calls && b != a ensures AlertOwner(w'.shared, b, w'.calls[b]) {
      assert e.MarkError? ==> Committed(k, k.pc.id);
      OthersKeepAlertOwner(w.shared, a, k, e, b, w.calls[b]);
    }
  }

  /** Steps that leave the alerts alone, and every call there was. */
  lemma OtherStepKeepsAlerts(w: World, act: Action)
    requires Valid(w) && Alerts(w) && !act.Does?
    ensures Alerts(Step(w, act))
  {
    var w' := Step(w, act);
    forall b | b in w'.calls
      ensures AlertOwner(w'.shared, b, w'.calls[b])
    {
      assert b in w.calls ==> AlertOwner(w.shared, b, w.calls[b]);
    }
  }

  lemma StepKeepsAlerts(w: World, act: Action)
    requires Valid(w) && Alerts(w) && OneCommitted(w)
    ensures Alerts(Step(w, act))
  {
    match act
    case Does(a, e) =>
      if a in w.calls && Possible(w.shared, w.calls[a], e) { CallKeepsAlerts(w, a, e); }
    case _ => OtherStepKeepsAlerts(w, act);
  }

  lemma {:induction false} GuardedRunKeepsAlerts(w: World, acts: seq<Action>)
    requires Valid(w) && Alerts(w) && OneCommitted(w) && GuardedRun(w, acts)
    ensures Valid(Run(w, acts)) && Alerts(Run(w, acts)) && OneCommitted(Run(w, acts))
    decreases |acts|
  {
    if acts != [] {
      StepKeepsValid(w, acts[0]);
      StepKeepsAlerts(w, acts[0]);
      GuardedStepKeepsOneCommitted(w, acts[0]);
      GuardedRunKeepsAlerts(Step(w, acts[0]), acts[1..]);
    }
  }

  ghost predicate AlertedOnce(w: World) {
    forall id :: |Members(w.shared.alertedBy, id)| <= 1
  }

  lemma AlertsMeanOnce(w: World)
    requires Alerts(w)
    ensures AlertedOnce(w)
  {
    forall id
      ensures |Members(w.shared.alertedBy, id)| <= 1
    {
      var alerted := Members(w.shared.alertedBy, id);
      if a :| a in alerted {
        assert alerted == {a};
      }
    }
  }

  /** In a guarded run, however the lock behaves, each row produces at most one reconnect notification. */
  lemma AlertsAtMostOnce(acts: seq<Action>)
    requires GuardedRun(Fresh, acts)
    ensures AlertedOnce(Run(Fresh, acts))
  {
    GuardedRunKeepsAlerts(Fresh, acts);
    AlertsMeanOnce(Run(Fresh, acts));
  }

  /** In a guarded run the provider is never asked to refresh a row in ERROR. */
  lemma ErrorRowsAreNotRefreshed(acts: seq<Action>, a: Caller)
    requires GuardedRun(Fresh, acts)
    requires var w := Run(Fresh, acts); a in w.calls && w.calls[a].pc.Refreshing?
    ensures var w := Run(Fresh, acts); var id := w.calls[a].pc.id;
            id in w.shared.rows && w.shared.rows[id].status != ERROR
  {
    GuardedRunKeepsAlerts(Fresh, acts);
    var w := Run(Fresh, acts);
    assert AlertOwner(w.shared, a, w.calls[a]);
    assert Committed(w.calls[a], w.calls[a].pc.id);
  }

  // ----- What needs the lock, and what it does not protect -----

  lemma {:induction false} RunAppend(w: World, first: seq<Action>, second: seq<Action>)
    ensures Run(w, first + second) == Run(Run(w, first), second)
    decreases |first|
  {
    if first == [] {
      assert first + second == second;
    } else {
      assert (first + second)[1..] == first[1..] + second;
      RunAppend(Step(w, first[0]), first[1..], second);
    }
  }

  lemma TwoSteps(w: World, x: Action, y: Action)
    ensures Run(w, [x, y]) == Step(Step(w, x), y)
  {
    assert [x, y][1..] == [y];
    assert Run(Step(w, x), [y]) == Run(Step(Step(w, x), y), []);
  }

  /** What a call committed to a row has still to do to record a permanent refusal. */
  function MarksError(a: Caller, k: Call): seq<Action> {
    (if k.pc.MarkingError? then [] else [Does(a, RefreshFails(true))]) + [Does(a, MarkError)]
  }

  function AlertsAdmins(a: Caller): seq<Action> {
    [Does(a, Release), Does(a, Alert)]
  }

  lemma OneStep(w: World, x: Action)
    ensures Run(w, [x]) == Step(w, x)
  {
    assert Run(Step(w, x), []) == Step(w, x);
  }

  /** A call committed to a row can still record a refusal on it, whatever the row's status is by then. */
  lemma MarkingLeavesReleasing(w: World, a: Caller, id: ConnectionId)
    requires a in w.calls && Committed(w.calls[a], id) && id in w.shared.rows
    ensures var marked := Run(w, MarksError(a, w.calls[a]));
            && id in marked.shared.rows && marked.shared.rows[id].status == ERROR
            && a in marked.calls && marked.calls[a].pc == Releasing(id, true, NeedsReconnect)
            && Members(marked.shared.alertedBy, id) == Members(w.shared.alertedBy, id)
            && (forall b :: b in w.calls && b != a ==> b in marked.calls && marked.calls[b] == w.calls[b])
  {
    if w.calls[a].pc.MarkingError? {
      assert MarksError(a, w.calls[a]) == [Does(a, MarkError)];
      OneStep(w, Does(a, MarkError));
    } else {
      assert MarksError(a, w.calls[a]) == [Does(a, RefreshFails(true)), Does(a, MarkError)];
      TwoSteps(w, Does(a, RefreshFails(true)), Does(a, MarkError));
    }
  }

  lemma ReleasingAlerts(w: World, a: Caller, id: ConnectionId)
    requires a in w.calls && w.calls[a].pc == Releasing(id, true, NeedsReconnect) && id in w.shared.rows
    ensures var alerted := Run(w, AlertsAdmins(a));
            && alerted.shared.rows == w.shared.rows
            && Members(alerted.shared.alertedBy, id) == Members(w.shared.alertedBy, id) + {a}
            && (forall b :: b in w.calls && b != a ==> b in alerted.calls && alerted.calls[b] == w.calls[b])
  {
    TwoSteps(w, AlertsAdmins(a)[0], AlertsAdmins(a)[1]);
  }

  /** Calls under way go on, and none goes on to refresh: nothing in this a guard could forbid. */
  predicate NoneRefreshes(acts: seq<Action>) {
    forall act :: act in acts ==> act.Does? && !act.event.Reread?
  }

  lemma {:induction false} NoneRefreshesIsGuarded(w: World, acts: seq<Action>)
    requires NoneRefreshes(acts)
    ensures GuardedRun(w, acts)
    decreases |acts|
  {
    if acts != [] {
      assert acts[0] in acts;
      assert forall act :: act in acts[1..] ==> act in acts;
      NoneRefreshesIsGuarded(Step(w, acts[0]), acts[1..]);
    }
  }

  /** A permanent refusal to a call committed to the row is recorded and alerted. */
  lemma CommittedCanAlert(w: World, a: Caller, id: ConnectionId) returns (acts: seq<Action>)
    requires a in w.calls && Committed(w.calls[a], id) && id in w.shared.rows
    ensures var w' := Run(w, acts);
            && id in w'.shared.rows
            && Members(w'.shared.alertedBy, id) == Members(w.shared.alertedBy, id) + {a}
            && (forall b :: b in w.calls && b != a ==> b in w'.calls && w'.calls[b] == w.calls[b])
    ensures NoneRefreshes(acts)
  {
    acts := MarksError(a, w.calls[a]) + AlertsAdmins(a);
    RunAppend(w, MarksError(a, w.calls[a]), AlertsAdmins(a));
    MarkingLeavesReleasing(w, a, id);
    ReleasingAlerts(Run(w, MarksError(a, w.calls[a])), a, id);
  }

  /** Two calls committed to one row can end in two notifications for it. */
  lemma TwoCommittedCanAlertTwice(w: World, a: Caller, b: Caller, id: ConnectionId) returns (acts: seq<Action>)
    requires a in w.calls && Committed(w.calls[a], id)
    requires b in w.calls && Committed(w.calls[b], id)
    requires a != b && id in w.shared.rows
    ensures |Members(Run(w, acts).shared.alertedBy, id)| >= 2 && NoneRefreshes(acts)
  {
    var first := CommittedCanAlert(w, a, id);
    var second := CommittedCanAlert(Run(w, first), b, id);
    acts := first + second;
    RunAppend(w, first, second);
    var alerted := Members(Run(w, acts).shared.alertedBy, id);
    assert {a, b} <= alerted;
    assert |alerted - {a, b}| == |alerted| - 2;
  }

  /**
   In every state a run can reach, a step that breaks the guard can be continued to two notifications
   for the very row it re-read, though no call goes on to refresh after it: this step alone is to blame.
   */
  lemma UnguardedRereadCanAlertTwice(acts: seq<Action>, act: Action) returns (more: seq<Action>)
    requires !Guarded(Run(Fresh, acts), act)
    ensures var w := Run(Fresh, acts);
      && |Members(Run(Step(w, act), more).shared.alertedBy, w.calls[act.a].pc.id)| >= 2
      && NoneRefreshes(more) && GuardedRun(Step(w, act), more)
  {
    var w := Run(Fresh, acts);
    RunKeepsValid(Fresh, acts);
    var id := w.calls[act.a].pc.id;
    var b :| b in w.calls && b != act.a && Committed(w.calls[b], id);
    more := TwoCommittedCanAlertTwice(Step(w, act), act.a, b, id);
    NoneRefreshesIsGuarded(Step(w, act), more);
  }

  /**
   The guard is exact: after a guarded run, a step leaves every guarded continuation with one notification
   for each row at most if and only if the step is guarded itself.
   */
  lemma AlertsOnceExactlyWhen(acts: seq<Action>, act: Action)
    requires GuardedRun(Fresh, acts)
    ensures var next := Step(Run(Fresh, acts), act);
      (forall more :: GuardedRun(next, more) ==> AlertedOnce(Run(next, more))) <==> Guarded(Run(Fresh, acts), act)
  {
    var w, next := Run(Fresh, acts), Step(Run(Fresh, acts), act);
    GuardedRunKeepsAlerts(Fresh, acts);
    if Guarded(w, act) {
      StepKeepsValid(w, act);
      StepKeepsAlerts(w, act);
      GuardedStepKeepsOneCommitted(w, act);
      forall more | GuardedRun(next, more)
        ensures AlertedOnce(Run(next, more))
      {
        GuardedRunKeepsAlerts(next, more);
        AlertsMeanOnce(Run(next, more));
      }
    } else {
      var more := UnguardedRereadCanAlertTwice(acts, act);
      assert !AlertedOnce(Run(next, more));
    }
  }

  // ----- The blind ERROR write -----

  lemma OnlyTheCommittedMark(w: World, act: Action, id: ConnectionId)
    requires id in w.shared.rows && w.shared.rows[id].status == DISCONNECTED
    requires forall a :: a in w.calls ==> !Committed(w.calls[a], id)
    ensures id in Step(w, act).shared.rows && Step(w, act).shared.rows[id].status == DISCONNECTED
  {
    if act.Does? && act.a in w.calls && act.event.MarkError? && Possible(w.shared, w.calls[act.a], act.event) {
      assert Committed(w.calls[act.a], w.calls[act.a].pc.id);
    }
  }

  /** A row stays as a disconnect left it while no call is committed to it. */
  lemma {:induction false} UncommittedStaysDisconnected(w: World, acts: seq<Action>, id: ConnectionId)
    requires id in w.shared.rows && w.shared.rows[id].status == DISCONNECTED
    requires forall a :: a in w.calls ==> !Committed(w.calls[a], id)
    ensures id in Run(w, acts).shared.rows && Run(w, acts).shared.rows[id].status == DISCONNECTED
    decreases |acts|
  {
    if acts != [] {
      var next := Step(w, acts[0]);
      forall a | a in next.calls
        ensures !Committed(next.calls[a], id)
      {
      }
      OnlyTheCommittedMark(w, acts[0], id);
      UncommittedStaysDisconnected(next, acts[1..], id);
    }
  }

  ghost predicate StaysDisconnected(w: World, id: ConnectionId) {
    forall acts :: id in Run(w, acts).shared.rows && Run(w, acts).shared.rows[id].status == DISCONNECTED
  }

  /**
   The ERROR write is a blind update by primary key. In every state a run can reach, a row disconnected
   there stays DISCONNECTED for good if and only if no call is committed to it at that point; otherwise
   it can come back as ERROR, the status under which it is shown as the current connection.
   */
  lemma DisconnectLastsExactlyWhen(before: seq<Action>, id: ConnectionId)
    requires id in Run(Fresh, before).shared.rows
    ensures var w := Run(Fresh, before);
      StaysDisconnected(Step(w, Disconnect(id)), id) <==> forall a :: a in w.calls ==> !Committed(w.calls[a], id)
  {
    var w := Run(Fresh, before);
    var disconnected := Step(w, Disconnect(id));
    assert disconnected.calls == w.calls && disconnected.shared.rows[id].status == DISCONNECTED;
    if a :| a in w.calls && Committed(w.calls[a], id) {
      MarkingLeavesReleasing(disconnected, a, id);
      var acts := MarksError(a, w.calls[a]);
      assert Run(disconnected, acts).shared.rows[id].status == ERROR;
      assert !StaysDisconnected(disconnected, id);
    } else {
      forall acts
        ensures id in Run(disconnected, acts).shared.rows
        ensures Run(disconnected, acts).shared.rows[id].status == DISCONNECTED
      {
        UncommittedStaysDisconnected(disconnected, acts, id);
      }
    }
  }
}
