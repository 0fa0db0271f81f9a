/**
 The cache of sales accounts and the default chosen from it
 (apps/api/src/accounting-account-sync/accounting-account-sync.processor.ts and updateConnectionSettings
 in apps/api/src/accounting/accounting-connection.service.ts), for one organisation.
 */
module AccountSync {
  import opened Wrappers

  type AccountId = nat

  /** `details` stands for the code, name and raw data. */
  datatype Account = Account(details: int, isActive: bool)

  datatype Report = Report(id: AccountId, account: Account)

  type Cache = map<AccountId, Account>

  /** What the fetch says of an account: its last report, should it be listed twice. */
  function LastReport(fetch: seq<Report>, id: AccountId): Option<Account>
    decreases |fetch|
  {
    if fetch == [] then None
    else
      var last := fetch[|fetch| - 1];
      if last.id == id then Some(last.account) else LastReport(fetch[..|fetch| - 1], id)
  }

  predicate Lists(fetch: seq<Report>, id: AccountId) {
    LastReport(fetch, id).Some?
  }

  function Listed(fetch: seq<Report>): (ids: set<AccountId>)
    ensures forall id :: id in ids <==> Lists(fetch, id)
    decreases |fetch|
  {
    if fetch == [] then {} else Listed(fetch[..|fetch| - 1]) + {fetch[|fetch| - 1].id}
  }

  predicate ActiveIn(cache: Cache, id: AccountId) {
    id in cache && cache[id].isActive
  }

  /** The cache after a pull: the fetch as reported, everything else kept but inactive. */
  function Pulled(cache: Cache, fetch: seq<Report>): Cache {
    map id | id in cache.Keys + Listed(fetch) ::
      if Lists(fetch, id) then LastReport(fetch, id).value else cache[id].(isActive := false)
  }

  /** The active accounts are exactly those the fetch reported active, and no row is ever lost. */
  lemma ActiveAreThoseReported(cache: Cache, fetch: seq<Report>, id: AccountId)
    ensures ActiveIn(Pulled(cache, fetch), id) <==> LastReport(fetch, id).Some? && LastReport(fetch, id).value.isActive
    ensures id in Pulled(cache, fetch) <==> id in cache || Lists(fetch, id)
  {
  }

  /**
   The fetch says something of exactly the accounts among its reports, and it is the report no later
   one follows.
   */
  lemma {:induction false} LastReportIsLast(fetch: seq<Report>, id: AccountId)
    ensures LastReport(fetch, id).None? <==> forall i :: 0 <= i < |fetch| ==> fetch[i].id != id
    ensures LastReport(fetch, id).Some? ==>
      exists i :: 0 <= i < |fetch| && fetch[i] == Report(id, LastReport(fetch, id).value)
        && forall j :: i < j < |fetch| ==> fetch[j].id != id
    decreases |fetch|
  {
    if fetch != [] {
      var n := |fetch| - 1;
      LastReportIsLast(fetch[..n], id);
      if fetch[n].id == id { assert fetch[n] == Report(id, LastReport(fetch, id).value); }
    }
  }

  /**
   A pull leaves an account as its last report has it, code, name and all, and one that is not reported
   with the details it had, inactive.
   */
  lemma PulledAsReported(cache: Cache, fetch: seq<Report>, id: AccountId)
    ensures forall i :: 0 <= i < |fetch| && fetch[i].id == id && (forall j :: i < j < |fetch| ==> fetch[j].id != id) ==>
      id in Pulled(cache, fetch) && Pulled(cache, fetch)[id] == fetch[i].account
    ensures id in cache && (forall i :: 0 <= i < |fetch| ==> fetch[i].id != id) ==>
      id in Pulled(cache, fetch) && Pulled(cache, fetch)[id] == Account(cache[id].details, false)
  {
    LastReportIsLast(fetch, id);
  }

  lemma {:induction false} OneReportIsTheLast(fetch: seq<Report>, i: nat)
    requires i < |fetch|
    requires forall j, k :: 0 <= j < k < |fetch| ==> fetch[j].id != fetch[k].id
    ensures LastReport(fetch, fetch[i].id) == Some(fetch[i].account)
    decreases |fetch|
  {
    if i < |fetch| - 1 { OneReportIsTheLast(fetch[..|fetch| - 1], i); }
  }

  // ----- Pulls, settings and the notification -----

  /** An open pull transaction: what it read of the default first, then what its second look decided. */
  datatype Pull = Began(wasActive: bool) | Looked(fetch: seq<Report>, notify: bool)

  /**
   `checked` is the account a settings change found active and is about to write. `told` says whether a
   notification went out since the default was last chosen, `falls` counts the committed pulls that took
   the default from active to inactive.
   */
  datatype World = World(
    cache: Cache,
    chosen: Option<AccountId>,
    pull: Option<Pull>,
    checked: Option<AccountId>,
    notified: nat,
    told: bool,
    falls: nat)

  function Fresh(cache: Cache): World {
    World(cache, None, None, None, 0, false, 0)
  }

  predicate Active(cache: Cache, chosen: Option<AccountId>) {
    chosen.Some? && ActiveIn(cache, chosen.value)
  }

  /** Whether committing the fetch takes this default from active to inactive. */
  predicate Falls(cache: Cache, chosen: Option<AccountId>, fetch: seq<Report>) {
    Active(cache, chosen) && !Active(Pulled(cache, fetch), chosen)
  }

  datatype Action =
    | Begin
    /** After the upserts and the deactivation, which nobody else sees yet. */
    | LookAgain(fetch: seq<Report>)
    | Commit
    | RollBack
    | Check(id: AccountId)
    | WriteChecked
    | Clear

  function Step(w: World, act: Action): World {
    match act
    case Begin => if w.pull.Some? then w else w.(pull := Some(Began(Active(w.cache, w.chosen))))
    case LookAgain(fetch) =>
      if w.pull.None? || w.pull.value.Looked? then w
      else w.(pull := Some(Looked(fetch, w.pull.value.wasActive && !Active(Pulled(w.cache, fetch), w.chosen))))
    case Commit =>
      if w.pull.None? || w.pull.value.Began? then w
      else
        var fetch, notify := w.pull.value.fetch, w.pull.value.notify;
        w.(cache := Pulled(w.cache, fetch), pull := None,
           notified := w.notified + (if notify then 1 else 0),
           told := w.told || notify,
           falls := w.falls + if Falls(w.cache, w.chosen, fetch) then 1 else 0)
    case RollBack => w.(pull := None)
    case Check(id) => if ActiveIn(w.cache, id) then w.(checked := Some(id)) else w
    case WriteChecked => if w.checked.None? then w else Choose(w, w.checked).(checked := None)
    case Clear => Choose(w, None)
  }

  function Choose(w: World, chosen: Option<AccountId>): World {
    w.(chosen := chosen, told := false)
  }

  function Run(w: World, acts: seq<Action>): World
    decreases |acts|
  {
    if acts == [] then w else Run(Step(w, acts[0]), acts[1..])
  }

  /** A default that is not active has been told of. */
  predicate NeverSilent(w: World) {
    w.chosen.Some? && !Active(w.cache, w.chosen) ==> w.told
  }

  /** With this default the open pull is right: about its being active, and later about its fall. */
  predicate RightAbout(w: World, chosen: Option<AccountId>) {
    w.pull.Some? ==>
      match w.pull.value
      case Began(wasActive) => wasActive == Active(w.cache, chosen)
      case Looked(fetch, notify) => notify == Falls(w.cache, chosen, fetch)
  }

  predicate Right(w: World) {
    NeverSilent(w) && RightAbout(w, w.chosen) && w.notified == w.falls
  }

  /** What a change of default must find: an open pull that stays right, and an account still active. */
  predicate Guarded(w: World, act: Action) {
    && (act.Clear? ==> RightAbout(w, None))
    && (act.WriteChecked? && w.checked.Some? ==> RightAbout(w, w.checked) && Active(w.cache, w.checked))
  }

  predicate GuardedRun(w: World, acts: seq<Action>)
    decreases |acts|
  {
    acts == [] || (Guarded(w, acts[0]) && GuardedRun(Step(w, acts[0]), acts[1..]))
  }

  /**
   Over any pulls, rollbacks, retries and changes of default that keep to the guard, there is exactly one
   notification for every committed pull that took the default from active to inactive, and no inactive
   default is ever left untold.
   */
  lemma {:induction false} NotifiedOncePerFall(w: World, acts: seq<Action>)
    requires Right(w) && GuardedRun(w, acts)
    ensures var last := Run(w, acts);
      NeverSilent(last) && last.notified == last.falls && Right(last)
    decreases |acts|
  {
    if acts != [] {
      NotifiedOncePerFall(Step(w, acts[0]), acts[1..]);
    }
  }

  lemma OneStep(w: World, act: Action)
    ensures Run(w, [act]) == Step(w, act)
  {
    assert Run(Step(w, act), []) == Step(w, act);
  }

  lemma TwoSteps(w: World, x: Action, y: Action)
    ensures Run(w, [x, y]) == Step(Step(w, x), y)
  {
    assert [x, y][1..] == [y];
    OneStep(Step(w, x), y);
  }

  /** There is a notification for every fall, and no inactive default is left untold. */
  predicate Told(w: World) {
    NeverSilent(w) && w.notified == w.falls
  }

  /**
   From any state where all is right, a change of default that breaks the guard leaves an inactive default
   untold, or the pull that is open only has to end for a notification without a fall or a fall without one.
   */
  lemma UnguardedChangeCanMisjudge(w: World, act: Action) returns (more: seq<Action>)
    requires Right(w) && !Guarded(w, act)
    ensures !Told(Run(Step(w, act), more)) && GuardedRun(Step(w, act), more)
    ensures forall a :: a in more ==> a == LookAgain([]) || a == Commit
  {
    var chosen := if act.Clear? then None else w.checked;
    var changed := Step(w, act);
    if RightAbout(w, chosen) {
      more := [];
    } else if w.pull.value.Looked? {
      more := [Commit];
      OneStep(changed, Commit);
    } else {
      more := [LookAgain([]), Commit];
      TwoSteps(changed, LookAgain([]), Commit);
      assert more[1..] == [Commit];
    }
  }

  /**
   The guard is exact: from a state where all is right, a step leaves every guarded continuation telling
   rightly if and only if the step is guarded itself.
   */
  lemma ToldExactlyWhen(w: World, act: Action)
    requires Right(w)
    ensures var next := Step(w, act);
      (forall more :: GuardedRun(next, more) ==> Told(Run(next, more))) <==> Guarded(w, act)
  {
    var next := Step(w, act);
    if Guarded(w, act) {
      forall more | GuardedRun(next, more)
        ensures Told(Run(next, more))
      {
        NotifiedOncePerFall(next, more);
      }
    } else {
      var more := UnguardedChangeCanMisjudge(w, act);
    }
  }

  /**
   What a pull tells, with the default it read first, the one its second look found and the one there when
   it commits: it notifies without a fall, or misses one, exactly as stated of the three.
   */
  lemma CommitMisjudgesExactlyWhen(w: World, looked: Option<AccountId>, committed: Option<AccountId>,
      fetch: seq<Report>)
    requires w.pull.None?
    ensures var seen := Step(Step(w, Begin).(chosen := looked), LookAgain(fetch));
      var done := Step(seen.(chosen := committed), Commit);
      var after := Pulled(w.cache, fetch);
      && done.cache == after
      && (done.notified - w.notified > done.falls - w.falls <==>
          Active(w.cache, w.chosen) && !Active(after, looked) &&
          (Active(w.cache, committed) ==> Active(after, committed)))
      && (done.notified - w.notified < done.falls - w.falls <==>
          Active(w.cache, committed) && !Active(after, committed) &&
          (Active(w.cache, w.chosen) ==> Active(after, looked)))
  {
  }

  /** A default chosen while a pull that drops it is open goes inactive without a word. */
  lemma ChoosingDuringAPullCanBeSilent(id: AccountId, account: Account)
    requires account.isActive
    ensures var last := Run(Fresh(map[id := account]), [Begin, Check(id), WriteChecked, LookAgain([]), Commit]);
      !NeverSilent(last) && last.falls == 1 && last.notified == 0
  {
    var w := Fresh(map[id := account]);
    var open := Step(w, Begin);
    var checked := Step(open, Check(id));
    var written := Step(checked, WriteChecked);
    assert written == World(w.cache, Some(id), Some(Began(false)), None, 0, false, 0);
    TwoSteps(written, LookAgain([]), Commit);
    var acts := [Begin, Check(id), WriteChecked, LookAgain([]), Commit];
    assert acts[1..][1..][1..] == [LookAgain([]), Commit];
    assert Run(w, acts) == Run(open, acts[1..]) == Run(checked, acts[1..][1..])
      == Run(written, [LookAgain([]), Commit]);
  }

  // ----- The processor -----

  class AccountingAccountSyncProcessor {
    var cache: Cache
    var chosen: Option<AccountId>
    var notified: nat

    constructor (cache: Cache, chosen: Option<AccountId>)
      ensures this.cache == cache && this.chosen == chosen && notified == 0
    {
      this.cache, this.chosen, notified := cache, chosen, 0;
    }

    predicate IsDefaultActive()
      reads this
    {
      chosen.Some? && ActiveIn(cache, chosen.value)
    }

    /** Each account is created or updated as reported; the answer is whose rows were seen. */
    method Upsert(fetch: seq<Report>) returns (seenIds: seq<AccountId>)
      modifies this`cache
      ensures |seenIds| == |fetch| && forall id :: id in seenIds <==> Lists(fetch, id)
      ensures cache.Keys == old(cache).Keys + Listed(fetch)
      ensures forall id :: id in cache ==>
        cache[id] == if Lists(fetch, id) then LastReport(fetch, id).value else old(cache)[id]
    {
      seenIds := [];
      for i := 0 to |fetch|
        invariant |seenIds| == i && forall id :: id in seenIds <==> Lists(fetch[..i], id)
        invariant cache.Keys == old(cache).Keys + Listed(fetch[..i])
        invariant forall id :: id in cache ==>
          cache[id] == if Lists(fetch[..i], id) then LastReport(fetch[..i], id).value else old(cache)[id]
      {
        assert fetch[..i + 1][..i] == fetch[..i];
        cache := cache[fetch[i].id := fetch[i].account];
        seenIds := seenIds + [fetch[i].id];
      }
      assert fetch[..|fetch|] == fetch;
    }

    /** updateMany over the active rows not seen. */
    method Deactivate(seenIds: seq<AccountId>) returns (count: nat)
      modifies this`cache
      ensures count == |set id | id in old(cache) && old(cache)[id].isActive && id !in seenIds|
      ensures cache.Keys == old(cache).Keys
      ensures forall id :: id in cache ==>
        cache[id] == if id in seenIds then old(cache)[id] else old(cache)[id].(isActive := false)
    {
      var unlisted := set id | id in cache && cache[id].isActive && id !in seenIds;
      cache := map id | id in cache :: if id in unlisted then cache[id].(isActive := false) else cache[id];
      return |unlisted|;
    }

    /** The pull transaction, with nothing committed in between; `commits` is whether it lasts. */
    method Pull(fetch: seq<Report>, commits: bool) returns (updated: nat, deactivated: nat)
      modifies this`cache, this`notified
      ensures cache == if commits then Pulled(old(cache), fetch) else old(cache)
      ensures notified ==
        if commits && old(IsDefaultActive()) && !IsDefaultActive() then old(notified) + 1 else old(notified)
      ensures updated == |fetch|
      ensures deactivated == |set id | id in old(cache) && old(cache)[id].isActive && !Lists(fetch, id)|
    {
      var before := cache;
      var defaultWasActive := IsDefaultActive();
      var seenIds := Upsert(fetch);
      assert (set id | id in cache && cache[id].isActive && id !in seenIds)
          == (set id | id in before && before[id].isActive && !Lists(fetch, id));
      deactivated := Deactivate(seenIds);
      assert cache == Pulled(before, fetch);
      if commits {
        if defaultWasActive && !IsDefaultActive() { notified := notified + 1; }
      } else {
        cache := before;
      }
      updated := |seenIds|;
    }
  }
}
