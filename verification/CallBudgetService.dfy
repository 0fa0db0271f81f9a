/**
 The call budget as the source writes it: the script's commands on one Redis key, and the loop in
 `acquire` (apps/api/src/accounting/accounting-call-budget.service.ts). Other callers run the script
 on the same key between this caller's evaluations.
 */
module CallBudgetService {
  import opened CallBudget

  /** The script's answer as the number it is: 0 admits. */
  function ReplyOf(reply: int): Reply {
    if reply == 0 then Admit else Wait(reply)
  }

  /** The key remembers the calls admitted, and no window of 60 seconds holds more than `limit` of them. */
  ghost predicate Sound(k: Key, admitted: seq<int>, lastRun: int, limit: int) {
    limit >= 1 && Remembers(k, admitted, lastRun - WINDOW_MS, limit) && WindowsBounded(admitted, limit)
  }

  /** The key is full, and the wait runs until its oldest call ages out. */
  ghost predicate FullUntil(k: Key, now: int, limit: int, reply: int) {
    limit >= 1 && |k.scores| == limit && reply == Oldest(k.scores) + WINDOW_MS - now && reply >= 1
  }

  lemma StaysSound(k: Key, admitted: seq<int>, lastRun: int, now: int, limit: int)
    requires Sound(k, admitted, lastRun, limit) && lastRun <= now
    ensures var (next, reply) := Acquire(k, now, limit);
            Sound(next, if reply == Admit then admitted + [now] else admitted, now, limit)
  {
    AcquireKeepsRemembers(k, admitted, lastRun - WINDOW_MS, now, limit);
    AcquireKeepsEveryWindow(k, admitted, lastRun - WINDOW_MS, now, limit);
  }

  /** What an evaluation leaves behind, whichever way it went. */
  lemma Recorded(k: Key, admitted: seq<int>, lastRun: int, now: int, limit: int, next: Key, reply: int)
    requires Sound(k, admitted, lastRun, limit) && lastRun <= now
    requires (next, ReplyOf(reply)) == Acquire(k, now, limit)
    ensures Sound(next, if reply == 0 then admitted + [now] else admitted, now, limit)
    ensures reply == 0 <==> |Trim(admitted, now - WINDOW_MS)| < limit
    ensures reply != 0 ==> FullUntil(next, now, limit, reply)
  {
    StaysSound(k, admitted, lastRun, now, limit);
    AcquireKeepsRemembers(k, admitted, lastRun - WINDOW_MS, now, limit);
    if reply != 0 {
      DeniedState(k, admitted, lastRun - WINDOW_MS, now, limit);
    }
  }

  /** One organisation's key on the Redis server, with the server's clock. */
  class BudgetKey {
    const perMinute: int
    var scores: seq<int>
    var expiresAt: int
    var clock: int
    ghost var admitted: seq<int>
    ghost var lastRun: int
    /** Which of the admitted calls are this caller's own. */
    ghost var own: set<nat>

    ghost function State(): Key reads this {
      Key(scores, expiresAt)
    }

    ghost predicate Valid() reads this {
      lastRun <= clock && Sound(State(), admitted, lastRun, perMinute)
    }

    constructor (perMinute: int, clock: int)
      requires perMinute >= 1
      ensures Valid() && this.perMinute == perMinute && this.clock == clock && admitted == []
    {
      this.perMinute, this.clock := perMinute, clock;
      scores, expiresAt, admitted, lastRun, own := [], 0, [], clock, {};
    }

    /** ACQUIRE_SCRIPT's commands. */
    method RunScript() returns (reply: int)
      requires perMinute >= 1
      modifies this`scores, this`expiresAt
      ensures (State(), ReplyOf(reply)) == Acquire(old(State()), clock, perMinute)
      ensures reply >= 0
    {
      if expiresAt <= clock {
        scores := [];
      }
      scores := Trim(scores, clock - WINDOW_MS);
      if |scores| < perMinute {
        scores := scores + [clock];
        expiresAt := clock + WINDOW_MS;
        return 0;
      }
      reply := Max(1, Oldest(scores) + WINDOW_MS - clock);
    }

    ghost predicate Denied(reply: int) reads this {
      FullUntil(State(), clock, perMinute, reply)
    }

    /** Time passes on the server. */
    method Sleep(ms: nat)
      requires Valid()
      modifies this`clock
      ensures Valid() && clock == old(clock) + ms && own == old(own)
    {
      clock := clock + ms;
    }

    /** The script runs, and the call it admits is on record. */
    method Evaluate() returns (reply: int)
      requires Valid()
      modifies this`scores, this`expiresAt, this`admitted, this`lastRun
      ensures Valid()
      ensures reply == 0 ==> admitted == old(admitted) + [clock]
      ensures reply != 0 ==> admitted == old(admitted) && Denied(reply)
      ensures reply == 0 <==> |Trim(old(admitted), clock - WINDOW_MS)| < perMinute
    {
      ghost var before := State();
      reply := RunScript();
      Recorded(before, admitted, lastRun, clock, perMinute, State(), reply);
      lastRun := clock;
      admitted := if reply == 0 then admitted + [clock] else admitted;
    }

    /** One evaluation some time later: 0 admits the call, anything else is the wait in milliseconds. */
    method Eval(elapsedMs: nat) returns (reply: int)
      requires Valid()
      modifies this
      ensures Valid() && clock == old(clock) + elapsedMs && own == old(own)
      ensures reply == 0 ==> admitted == old(admitted) + [clock]
      ensures reply != 0 ==> admitted == old(admitted) && Denied(reply)
      ensures reply == 0 <==> |Trim(old(admitted), clock - WINDOW_MS)| < perMinute
    {
      Sleep(elapsedMs);
      reply := Evaluate();
    }

    /** This caller's own evaluation: a call it admits is this caller's. */
    method EvalOwn() returns (reply: int)
      requires Valid()
      modifies this
      ensures Valid() && clock == old(clock)
      ensures reply == 0 ==> admitted == old(admitted) + [clock] && own == old(own) + {|old(admitted)|}
      ensures reply != 0 ==> admitted == old(admitted) && own == old(own) && Denied(reply) && reply >= 1
    {
      reply := Eval(0);
      own := own + if reply == 0 then {|admitted| - 1} else {};
    }

    /** Other callers run the script, each so long after the one before. */
    method OtherCallers(delays: seq<nat>)
      requires Valid()
      modifies this
      ensures Valid() && clock >= old(clock) && own == old(own)
      ensures |admitted| >= |old(admitted)| && admitted[..|old(admitted)|] == old(admitted)
    {
      for i := 0 to |delays|
        invariant Valid() && clock >= old(clock) && own == old(own)
        invariant |admitted| >= |old(admitted)| && admitted[..|old(admitted)|] == old(admitted)
      {
        var _ := Eval(delays[i]);
      }
    }
  }

  /** This caller sleeps while others run the script. */
  method Pause(key: BudgetKey, ms: nat, others: seq<nat>)
    requires key.Valid()
    modifies key
    ensures key.Valid() && key.clock >= old(key.clock) + ms && key.own == old(key.own)
  {
    var wake := key.clock + ms;
    key.OtherCallers(others);
    if key.clock < wake {
      key.Sleep(wake - key.clock);
    }
  }

  datatype Outcome = Admitted | Unavailable | Exhausted(retryAfterMs: int)

  /** A pass the script denied: when it ran, and the wait it answered. */
  datatype Denial = Denial(at: int, waitMs: int)

  /** No pass ran, and nothing ended, before the wait the pass before it had been told was over. */
  ghost predicate WaitedOut(passes: seq<Denial>, end: int) {
    && (forall i :: 0 <= i < |passes| ==> passes[i].waitMs >= 1)
    && (forall i :: 0 < i < |passes| ==> passes[i].at >= passes[i - 1].at + passes[i - 1].waitMs)
    && (passes != [] ==> end >= passes[|passes| - 1].at + passes[|passes| - 1].waitMs)
  }

  lemma WaitedOutOnce(passes: seq<Denial>, pass: Denial, end: int)
    requires WaitedOut(passes, pass.at) && pass.waitMs >= 1 && end >= pass.at + pass.waitMs
    ensures WaitedOut(passes + [pass], end)
  {
  }

  /**
   acquire. The n-th pass meets `redisUp(n)`, other callers' evaluations `others(n)` during its sleep
   and `jitter(n)`, which Math.random() keeps below WAIT_JITTER_MS. It always ends, having slept at
   most 20,249 ms by its own count and after each of `passes` at least the wait it was told. It goes
   ahead unbudgeted exactly if Redis fails it on its last pass; otherwise it is admitted, and this is
   the one call on record that is its own, or CALL_BUDGET_EXHAUSTED is thrown, which carries the exact
   wait, and only when that wait would pass the maximum.
   */
  method AcquireCall(key: BudgetKey, redisUp: nat -> bool, others: nat -> seq<nat>, jitter: nat -> nat)
    returns (outcome: Outcome, waited: nat, ghost passes: seq<Denial>)
    requires key.Valid()
    requires forall n :: jitter(n) < WAIT_JITTER_MS
    modifies key
    ensures key.Valid() && key.clock >= old(key.clock) + waited
    ensures waited <= MAX_BUDGET_WAIT_MS + WAIT_JITTER_MS - 1
    ensures WaitedOut(passes, key.clock)
    ensures outcome.Unavailable? <==> !redisUp(|passes|)
    ensures forall i :: 0 <= i < |passes| ==> redisUp(i)
    ensures outcome.Admitted? ==>
              key.admitted != [] && key.admitted[|key.admitted| - 1] == key.clock
              && key.own == old(key.own) + {|key.admitted| - 1}
    ensures !outcome.Admitted? ==> key.own == old(key.own)
    ensures outcome.Exhausted? ==>
              waited + outcome.retryAfterMs > MAX_BUDGET_WAIT_MS && key.Denied(outcome.retryAfterMs)
  {
    waited, passes := 0, [];
    var n := 0;
    while true
      invariant key.Valid() && key.clock >= old(key.clock) + waited
      invariant waited <= MAX_BUDGET_WAIT_MS + WAIT_JITTER_MS - 1
      invariant n == |passes| && WaitedOut(passes, key.clock) && key.own == old(key.own)
      invariant forall i :: 0 <= i < n ==> redisUp(i)
      decreases MAX_BUDGET_WAIT_MS + WAIT_JITTER_MS - waited
    {
      if !redisUp(n) {
        return Unavailable, waited, passes;
      }
      var waitMs := key.EvalOwn();
      if waitMs <= 0 {
        return Admitted, waited, passes;
      }
      if waited + waitMs > MAX_BUDGET_WAIT_MS {
        return Exhausted(waitMs), waited, passes;
      }
      ghost var asked := key.clock;
      var pause := waitMs + jitter(n);
      Pause(key, pause, others(n));
      WaitedOutOnce(passes, Denial(asked, waitMs), key.clock);
      passes := passes + [Denial(asked, waitMs)];
      waited := waited + pause;
      n := n + 1;
    }
  }
}
