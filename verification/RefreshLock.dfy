/**
 The leased Redis lock around a token refresh
 (apps/api/src/accounting/accounting-refresh-lock.service.ts): one key per connection, set with NX
 and a time to live, renewed and released by scripts that check the owner token first.
 */
module RefreshLock {
  import opened Wrappers

  const ACCOUNTING_REFRESH_LOCK_TTL_MS := 15_000

  /** randomUUID(): a token is used by one acquisition only. */
  type Owner = nat

  datatype Lease = Lease(owner: Owner, expiresAt: int)

  // ----- The commands the key sees -----

  /** A key is gone once its time to live has run out. */
  function Get(key: Option<Lease>, now: int): Option<Owner> {
    if key.Some? && now < key.value.expiresAt then Some(key.value.owner) else None
  }

  /** SET key owner PX ttl NX */
  function SetNx(key: Option<Lease>, owner: Owner, ttlMs: int, now: int): (Option<Lease>, bool) {
    if Get(key, now).Some? then (key, false) else (Some(Lease(owner, now + ttlMs)), true)
  }

  /** RENEW_SCRIPT */
  function Renewed(key: Option<Lease>, owner: Owner, ttlMs: int, now: int): Option<Lease> {
    if Get(key, now) == Some(owner) then Some(Lease(owner, now + ttlMs)) else key
  }

  /** RELEASE_SCRIPT */
  function Released(key: Option<Lease>, owner: Owner, now: int): Option<Lease> {
    if Get(key, now) == Some(owner) then None else key
  }

  // ----- Any number of owners -----

  /** `holders` are the owners inside the critical section, each with the end of its lease. */
  datatype State = State(key: Option<Lease>, now: int, used: set<Owner>, holders: map<Owner, int>)

  const Fresh := State(None, 0, {}, map[])

  datatype Action =
    | Acquire(owner: Owner, answered: bool)
    | Renew(owner: Owner)
    | Release(owner: Owner, reached: bool)
    | Tick(ms: nat)

  function Step(s: State, act: Action): State {
    match act
    case Acquire(owner, answered) =>
      if owner in s.used then s
      else
        var (key, taken) := SetNx(s.key, owner, ACCOUNTING_REFRESH_LOCK_TTL_MS, s.now);
        s.(key := key, used := s.used + {owner},
           holders := if taken && answered then s.holders[owner := key.value.expiresAt] else s.holders)
    case Renew(owner) =>
      var key := Renewed(s.key, owner, ACCOUNTING_REFRESH_LOCK_TTL_MS, s.now);
      s.(key := key,
         holders := if owner in s.holders && Get(s.key, s.now) == Some(owner)
                    then s.holders[owner := key.value.expiresAt] else s.holders)
    case Release(owner, reached) =>
      s.(key := if reached then Released(s.key, owner, s.now) else s.key, holders := s.holders - {owner})
    case Tick(ms) => s.(now := s.now + ms)
  }

  function Run(s: State, acts: seq<Action>): State
    decreases |acts|
  {
    if acts == [] then s else Run(Step(s, acts[0]), acts[1..])
  }

  /** The lease ran out with no renewal reaching Redis in time. */
  predicate Lapsed(s: State, owner: Owner) {
    owner in s.holders && s.holders[owner] <= s.now
  }

  /** Every owner inside either holds the key until its lease ends, or its lease has run out. */
  ghost predicate Valid(s: State) {
    && s.holders.Keys <= s.used
    && (s.key.Some? ==> s.key.value.owner in s.used)
    && (s.key.Some? && s.key.value.owner in s.holders ==>
          s.holders[s.key.value.owner] == s.key.value.expiresAt)
    && (forall o :: o in s.holders ==> Lapsed(s, o) || s.key == Some(Lease(o, s.holders[o])))
  }

  lemma StepKeepsValid(s: State, act: Action)
    requires Valid(s)
    ensures Valid(Step(s, act))
  {
  }

  lemma {:induction false} RunKeepsValid(s: State, acts: seq<Action>)
    requires Valid(s)
    ensures Valid(Run(s, acts))
    decreases |acts|
  {
    if acts != [] {
      StepKeepsValid(s, acts[0]);
      RunKeepsValid(Step(s, acts[0]), acts[1..]);
    }
  }

  /** In every run, of two owners inside at once at least one has let its lease run out. */
  lemma OverlapMeansLapsed(acts: seq<Action>, a: Owner, b: Owner)
    requires var s := Run(Fresh, acts); a in s.holders && b in s.holders && a != b
    ensures var s := Run(Fresh, acts); Lapsed(s, a) || Lapsed(s, b)
  {
    RunKeepsValid(Fresh, acts);
  }

  /** An owner enters only when the lease of everyone already inside has run out unrenewed. */
  lemma EntersOnlyAfterLapse(acts: seq<Action>, b: Owner, earlier: Owner)
    requires var s := Run(Fresh, acts);
             earlier in s.holders && b !in s.holders && b in Step(s, Acquire(b, true)).holders
    ensures Lapsed(Run(Fresh, acts), earlier)
  {
    RunKeepsValid(Fresh, acts);
  }

  /** A lease that has run out stays run out: its owner can no longer renew it. */
  lemma LapsedForGood(s: State, act: Action, owner: Owner)
    requires Valid(s) && Lapsed(s, owner) && owner in Step(s, act).holders
    ensures Lapsed(Step(s, act), owner)
  {
  }

  /** A renewal or release by anyone but the owner Redis holds leaves the key as it was. */
  lemma OnlyTheOwnerTouchesTheKey(s: State, owner: Owner, reached: bool)
    requires Get(s.key, s.now) != Some(owner)
    ensures Step(s, Renew(owner)).key == s.key && Step(s, Release(owner, reached)).key == s.key
  {
  }

  // ----- Renewed in time -----

  /** No time passes beyond the lease of an owner inside. */
  predicate Timely(s: State, act: Action) {
    act.Tick? ==> forall o :: o in s.holders ==> s.now + act.ms < s.holders[o]
  }

  predicate TimelyRun(s: State, acts: seq<Action>)
    decreases |acts|
  {
    acts == [] || (Timely(s, acts[0]) && TimelyRun(Step(s, acts[0]), acts[1..]))
  }

  ghost predicate Exclusive(s: State) {
    forall a, b :: a in s.holders && b in s.holders ==> a == b
  }

  ghost predicate NoneLapsed(s: State) {
    forall o :: o in s.holders ==> !Lapsed(s, o)
  }

  lemma {:induction false} TimelyRunKeepsExclusive(s: State, acts: seq<Action>)
    requires Valid(s) && NoneLapsed(s) && TimelyRun(s, acts)
    ensures Exclusive(Run(s, acts))
    decreases |acts|
  {
    if acts != [] {
      StepKeepsValid(s, acts[0]);
      TimelyRunKeepsExclusive(Step(s, acts[0]), acts[1..]);
    }
  }

  /** While every lease is renewed before it runs out there is at most one owner inside. */
  lemma MutualExclusion(acts: seq<Action>)
    requires TimelyRun(Fresh, acts)
    ensures Exclusive(Run(Fresh, acts))
  {
    TimelyRunKeepsExclusive(Fresh, acts);
  }

  /** And only then: once time has run past a lease, a second owner gets in beside the first. */
  lemma UntimelyTickLetsAnotherIn(s: State, ms: nat, owner: Owner)
    requires Valid(s) && NoneLapsed(s) && !Timely(s, Tick(ms)) && owner !in s.used
    ensures !Exclusive(Step(Step(s, Tick(ms)), Acquire(owner, true)))
  {
    var o :| o in s.holders && s.holders[o] <= s.now + ms;
    assert s.key == Some(Lease(o, s.holders[o]));
    var entered := Step(Step(s, Tick(ms)), Acquire(owner, true));
    assert o in entered.holders && owner in entered.holders;
  }

  // ----- The lock object -----

  /** The Redis server's side of one lock key, and its clock. */
  class LockKey {
    var key: Option<Lease>
    var now: int
    ghost var state: State
    ghost var history: seq<Action>

    ghost predicate Tracked() reads this {
      state == Run(Fresh, history) && state.key == key && state.now == now && Valid(state)
    }

    constructor ()
      ensures Tracked() && key == None && state == Fresh
    {
      key, now := None, 0;
      state, history := Fresh, [];
    }

    ghost method Advance(act: Action)
      requires state == Run(Fresh, history) && Valid(state)
      modifies this`state, this`history
      ensures state == Step(old(state), act) && state == Run(Fresh, history) && Valid(state)
    {
      RunSnoc(Fresh, history, act);
      StepKeepsValid(state, act);
      state, history := Step(state, act), history + [act];
    }

    method Sleep(ms: nat)
      requires Tracked()
      modifies this
      ensures Tracked() && key == old(key) && now == old(now) + ms && state.holders == old(state).holders
    {
      now := now + ms;
      Advance(Tick(ms));
    }
  }

  lemma {:induction false} RunSnoc(s: State, acts: seq<Action>, act: Action)
    ensures Run(s, acts + [act]) == Step(Run(s, acts), act)
    decreases |acts|
  {
    if acts == [] {
      assert Run(s, [] + [act]) == Run(Step(s, act), []);
    } else {
      assert (acts + [act])[1..] == acts[1..] + [act];
      RunSnoc(Step(s, acts[0]), acts[1..], act);
    }
  }

  class AccountingRefreshLock {
    const server: LockKey
    const ownerToken: Owner
    const ttlMs: int
    var renewTimer: bool

    /** The timer runs while, and only while, the lock has not been released. */
    ghost predicate Held() reads this, server {
      server.Tracked() && ttlMs == ACCOUNTING_REFRESH_LOCK_TTL_MS
      && renewTimer && ownerToken in server.state.holders
    }

    constructor (server: LockKey, ownerToken: Owner)
      requires server.Tracked() && ownerToken in server.state.holders
      ensures this.server == server && this.ownerToken == ownerToken && Held()
    {
      this.server, this.ownerToken, this.ttlMs := server, ownerToken, ACCOUNTING_REFRESH_LOCK_TTL_MS;
      renewTimer := true;
    }

    /** One firing of the renewal timer. */
    method RenewOnTimer()
      requires Held()
      modifies server
      ensures Held() && server.now == old(server.now)
      ensures Lapsed(old(server.state), ownerToken) ==> server.key == old(server.key)
      ensures !Lapsed(old(server.state), ownerToken) ==>
                server.key == Some(Lease(ownerToken, server.now + ACCOUNTING_REFRESH_LOCK_TTL_MS))
    {
      if Get(server.key, server.now) == Some(ownerToken) {
        server.key := Some(Lease(ownerToken, server.now + ttlMs));
      }
      server.Advance(Renew(ownerToken));
    }

    /** Ends the critical section; another owner's key is never deleted. */
    method ReleaseLock(reached: bool)
      requires Held()
      modifies this, server
      ensures server.Tracked() && !renewTimer && server.now == old(server.now)
      ensures server.state.holders == old(server.state.holders) - {ownerToken}
      ensures !reached || Lapsed(old(server.state), ownerToken) ==> server.key == old(server.key)
      ensures reached && !Lapsed(old(server.state), ownerToken) ==> server.key == None
    {
      renewTimer := false;
      if reached && Get(server.key, server.now) == Some(ownerToken) {
        server.key := None;
      }
      server.Advance(Release(ownerToken, reached));
    }
  }

  /**
   tryAcquire. Null when somebody else's lease is running, and also when Redis did not answer, even
   if the SET itself went through: the caller never goes ahead without confirmed ownership.
   */
  method TryAcquire(server: LockKey, ownerToken: Owner, reached: bool, answered: bool)
    returns (acquired: AccountingRefreshLock?)
    requires server.Tracked() && ownerToken !in server.state.used
    modifies server
    ensures server.Tracked() && server.now == old(server.now)
    ensures acquired != null <==> reached && answered && Get(old(server.key), server.now) == None
    ensures acquired != null ==>
              fresh(acquired) && acquired.server == server && acquired.ownerToken == ownerToken && acquired.Held()
              && server.key == Some(Lease(ownerToken, server.now + ACCOUNTING_REFRESH_LOCK_TTL_MS))
    ensures !reached || Get(old(server.key), server.now).Some? ==> server.key == old(server.key)
    ensures acquired == null ==> server.state.holders == old(server.state.holders)
  {
    acquired := null;
    if reached {
      var (key, taken) := SetNx(server.key, ownerToken, ACCOUNTING_REFRESH_LOCK_TTL_MS, server.now);
      server.key := key;
      server.Advance(Acquire(ownerToken, answered));
      if taken && answered {
        acquired := new AccountingRefreshLock(server, ownerToken);
      }
    }
  }
}
