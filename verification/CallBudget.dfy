/**
 The per-organisation provider call budget
 (apps/api/src/accounting/accounting-call-budget.service.ts): an atomic script over a sorted set of
 call times that expires, and the loop that waits for a slot.
 */
module CallBudget {
  const WINDOW_MS := 60_000
  const MAX_BUDGET_WAIT_MS := 20_000
  const WAIT_JITTER_MS := 250

  /** The sorted set, one score per call, and when Redis drops the whole key. */
  datatype Key = Key(scores: seq<int>, expiresAt: int)

  /** What the script returns: 0, a positive wait, or the error Lua raises indexing an empty reply. */
  datatype Reply = Admit | Wait(ms: int) | ScriptError

  const Missing := Key([], 0)

  /** The members left once PEXPIRE has had its effect. */
  function Alive(k: Key, now: int): seq<int> {
    if k.expiresAt <= now then [] else k.scores
  }

  /** ZREMRANGEBYSCORE key -inf cutoff */
  function Trim(scores: seq<int>, cutoff: int): (kept: seq<int>)
    ensures |kept| <= |scores|
  {
    if scores == [] then []
    else if scores[0] <= cutoff then Trim(scores[1..], cutoff)
    else [scores[0]] + Trim(scores[1..], cutoff)
  }

  /** ZRANGE key 0 0: the lowest score. */
  function Oldest(scores: seq<int>): (oldest: int)
    requires scores != []
    ensures oldest in scores && forall s :: s in scores ==> oldest <= s
  {
    if |scores| == 1 then scores[0]
    else
      assert scores == [scores[0]] + scores[1..];
      var rest := Oldest(scores[1..]);
      if scores[0] <= rest then scores[0] else rest
  }

  function Max(a: int, b: int): int {
    if a > b then a else b
  }

  /** ACQUIRE_SCRIPT, run at one instant of the Redis clock. */
  function Acquire(k: Key, now: int, limit: int): (Key, Reply) {
    var kept := Trim(Alive(k, now), now - WINDOW_MS);
    var trimmed := Key(kept, k.expiresAt);
    if |kept| < limit then (Key(kept + [now], now + WINDOW_MS), Admit)
    else if kept == [] then (trimmed, ScriptError)
    else (trimmed, Wait(Max(1, Oldest(kept) + WINDOW_MS - now)))
  }

  // ----- Every run -----

  /** A clock that starts at `start` or later and never goes back. */
  predicate Onward(times: seq<int>, start: int)
    decreases |times|
  {
    times == [] || (start <= times[0] && Onward(times[1..], times[0]))
  }

  /** The calls admitted when the script runs at each of the given instants, whoever runs it. */
  function Admitted(k: Key, times: seq<int>, limit: int): seq<int>
    decreases |times|
  {
    if times == [] then []
    else
      var (next, reply) := Acquire(k, times[0], limit);
      (if reply.Admit? then [times[0]] else []) + Admitted(next, times[1..], limit)
  }

  /**
   The key holds every admitted call newer than `cutoff`, one window before the script last ran. They
   are no more than `limit`, and the key lives until the last of them has aged out.
   */
  ghost predicate Remembers(k: Key, admitted: seq<int>, cutoff: int, limit: int) {
    && k.scores == Trim(admitted, cutoff)
    && |k.scores| <= limit
    && (forall s :: s in k.scores ==> s <= cutoff + WINDOW_MS && s + WINDOW_MS <= k.expiresAt)
  }

  lemma {:induction false} TrimMembers(scores: seq<int>, cutoff: int)
    ensures forall s :: s in Trim(scores, cutoff) <==> s in scores && s > cutoff
  {
    if scores != [] {
      assert scores == [scores[0]] + scores[1..];
      TrimMembers(scores[1..], cutoff);
    }
  }

  lemma {:induction false} TrimTwice(scores: seq<int>, first: int, second: int)
    requires first <= second
    ensures Trim(Trim(scores, first), second) == Trim(scores, second)
  {
    if scores != [] {
      TrimTwice(scores[1..], first, second);
      var rest := Trim(scores[1..], first);
      assert ([scores[0]] + rest)[1..] == rest;
    }
  }

  lemma {:induction false} TrimAppend(scores: seq<int>, x: int, cutoff: int)
    ensures Trim(scores + [x], cutoff) == Trim(scores, cutoff) + if x > cutoff then [x] else []
  {
    if scores == [] {
      assert [x][1..] == [];
    } else {
      assert (scores + [x])[1..] == scores[1..] + [x];
      TrimAppend(scores[1..], x, cutoff);
    }
  }

  lemma {:induction false} TrimKeepsAll(scores: seq<int>, cutoff: int)
    requires forall s :: s in scores ==> s > cutoff
    ensures Trim(scores, cutoff) == scores
  {
    if scores != [] {
      assert scores[0] in scores;
      assert forall s :: s in scores[1..] ==> s in scores;
      TrimKeepsAll(scores[1..], cutoff);
    }
  }

  lemma {:induction false} TrimDropsAll(scores: seq<int>, cutoff: int)
    requires forall s :: s in scores ==> s <= cutoff
    ensures Trim(scores, cutoff) == []
  {
    if scores != [] {
      assert scores[0] in scores;
      assert forall s :: s in scores[1..] ==> s in scores;
      TrimDropsAll(scores[1..], cutoff);
    }
  }

  lemma {:induction false} TrimDropsSome(scores: seq<int>, cutoff: int, s: int)
    requires s in scores && s <= cutoff
    ensures |Trim(scores, cutoff)| < |scores|
  {
    if scores[0] > cutoff {
      assert s in scores[1..];
      TrimDropsSome(scores[1..], cutoff, s);
    }
  }

  /** PEXPIRE on the key never removes a member that still counts. */
  lemma ExpiryDropsOnlyTheOld(k: Key, admitted: seq<int>, cutoff: int, now: int, limit: int)
    requires Remembers(k, admitted, cutoff, limit)
    ensures Trim(Alive(k, now), now - WINDOW_MS) == Trim(k.scores, now - WINDOW_MS)
  {
    if k.expiresAt <= now {
      TrimDropsAll(k.scores, now - WINDOW_MS);
    }
  }

  /** What the script counts is exactly the admitted calls of the window ending now. */
  lemma CountsTheRecentCalls(k: Key, admitted: seq<int>, cutoff: int, now: int, limit: int)
    requires Remembers(k, admitted, cutoff, limit) && cutoff <= now - WINDOW_MS
    ensures Trim(Alive(k, now), now - WINDOW_MS) == Trim(admitted, now - WINDOW_MS)
  {
    ExpiryDropsOnlyTheOld(k, admitted, cutoff, now, limit);
    TrimTwice(admitted, cutoff, now - WINDOW_MS);
  }

  lemma AcquireKeepsRemembers(k: Key, admitted: seq<int>, cutoff: int, now: int, limit: int)
    requires limit >= 1 && Remembers(k, admitted, cutoff, limit) && cutoff <= now - WINDOW_MS
    ensures var (next, reply) := Acquire(k, now, limit);
            && Remembers(next, if reply.Admit? then admitted + [now] else admitted, now - WINDOW_MS, limit)
            && (reply.Admit? <==> |Trim(admitted, now - WINDOW_MS)| < limit)
            && !reply.ScriptError?
  {
    CountsTheRecentCalls(k, admitted, cutoff, now, limit);
    TrimAppend(admitted, now, now - WINDOW_MS);
    var kept := Trim(Alive(k, now), now - WINDOW_MS);
    TrimMembers(Alive(k, now), now - WINDOW_MS);
    forall s | s in kept
      ensures s <= now && s + WINDOW_MS <= k.expiresAt
    {
      assert s in k.scores;
    }
  }

  /** How many admitted calls fall in the half-open window starting at `from`. */
  function InWindow(admitted: seq<int>, from: int): nat {
    if admitted == [] then 0
    else (if from <= admitted[0] < from + WINDOW_MS then 1 else 0) + InWindow(admitted[1..], from)
  }

  lemma {:induction false} InWindowAppend(admitted: seq<int>, x: int, from: int)
    ensures InWindow(admitted + [x], from)
         == InWindow(admitted, from) + if from <= x < from + WINDOW_MS then 1 else 0
  {
    if admitted == [] {
      assert [x][1..] == [];
    } else {
      assert (admitted + [x])[1..] == admitted[1..] + [x];
      InWindowAppend(admitted[1..], x, from);
    }
  }

  /** A window that a call at `x` falls in reaches no further back than the window ending at `x`. */
  lemma {:induction false} WindowIsRecent(admitted: seq<int>, from: int, x: int)
    requires from <= x < from + WINDOW_MS
    ensures InWindow(admitted, from) <= |Trim(admitted, x - WINDOW_MS)|
  {
    if admitted != [] {
      WindowIsRecent(admitted[1..], from, x);
    }
  }

  lemma AcquireKeepsWindow(k: Key, past: seq<int>, cutoff: int, now: int, limit: int, from: int)
    requires limit >= 1 && Remembers(k, past, cutoff, limit) && cutoff <= now - WINDOW_MS
    requires InWindow(past, from) <= limit
    ensures InWindow(if Acquire(k, now, limit).1.Admit? then past + [now] else past, from) <= limit
  {
    AcquireKeepsRemembers(k, past, cutoff, now, limit);
    InWindowAppend(past, now, from);
    if from <= now < from + WINDOW_MS {
      WindowIsRecent(past, from, now);
    }
  }

  ghost predicate WindowsBounded(admitted: seq<int>, limit: int) {
    forall from :: InWindow(admitted, from) <= limit
  }

  lemma AcquireKeepsEveryWindow(k: Key, past: seq<int>, cutoff: int, now: int, limit: int)
    requires limit >= 1 && Remembers(k, past, cutoff, limit) && cutoff <= now - WINDOW_MS
    requires WindowsBounded(past, limit)
    ensures WindowsBounded(if Acquire(k, now, limit).1.Admit? then past + [now] else past, limit)
  {
    var more := if Acquire(k, now, limit).1.Admit? then past + [now] else past;
    forall from ensures InWindow(more, from) <= limit {
      AcquireKeepsWindow(k, past, cutoff, now, limit, from);
    }
  }

  lemma {:induction false} RunKeepsWindow(k: Key, past: seq<int>, cutoff: int, times: seq<int>, limit: int, from: int)
    requires limit >= 1 && Remembers(k, past, cutoff, limit) && InWindow(past, from) <= limit
    requires Onward(times, cutoff + WINDOW_MS)
    ensures InWindow(past, from) + InWindow(Admitted(k, times, limit), from) <= limit
    decreases |times|
  {
    if times != [] {
      var (next, reply) := Acquire(k, times[0], limit);
      var more := if reply.Admit? then past + [times[0]] else past;
      AcquireKeepsRemembers(k, past, cutoff, times[0], limit);
      AcquireKeepsWindow(k, past, cutoff, times[0], limit, from);
      RunKeepsWindow(next, more, times[0] - WINDOW_MS, times[1..], limit, from);
      InWindowAppend(past, times[0], from);
      var rest := Admitted(next, times[1..], limit);
      if reply.Admit? {
        assert Admitted(k, times, limit)[1..] == rest;
      } else {
        assert Admitted(k, times, limit) == rest;
      }
    }
  }

  /**
   For any limit of at least one and any interleaving of callers on a clock that never goes back,
   every half-open interval of 60 seconds contains at most `limit` admitted calls.
   */
  lemma RollingWindow(times: seq<int>, start: int, limit: int, from: int)
    requires limit >= 1 && Onward(times, start)
    ensures InWindow(Admitted(Missing, times, limit), from) <= limit
  {
    RunKeepsWindow(Missing, [], start - WINDOW_MS, times, limit, from);
  }

  /** A limit below one raises an error on the empty set, and an error lets the caller through. */
  lemma NoBudgetFailsOpen(now: int, limit: int)
    requires limit <= 0
    ensures Acquire(Missing, now, limit) == (Missing, ScriptError)
  {
  }

  // ----- The wait is exact -----

  /** Nothing the given evaluations, by any callers, ask for is admitted. */
  predicate AllDenied(k: Key, times: seq<int>, limit: int)
    decreases |times|
  {
    times == [] || (Acquire(k, times[0], limit).1.Wait? && AllDenied(Acquire(k, times[0], limit).0, times[1..], limit))
  }

  /** A full key whose oldest call still counts denies the call and stays as it is. */
  lemma DeniedAgain(k: Key, now: int, limit: int)
    requires |k.scores| == limit >= 1
    requires now < Oldest(k.scores) + WINDOW_MS <= k.expiresAt
    ensures Acquire(k, now, limit) == (k, Wait(Oldest(k.scores) + WINDOW_MS - now))
  {
    TrimKeepsAll(k.scores, now - WINDOW_MS);
  }

  lemma {:induction false} DeniedUntilOldestAges(k: Key, times: seq<int>, limit: int)
    requires |k.scores| == limit >= 1 && Oldest(k.scores) + WINDOW_MS <= k.expiresAt
    requires forall i :: 0 <= i < |times| ==> times[i] < Oldest(k.scores) + WINDOW_MS
    ensures AllDenied(k, times, limit)
    decreases |times|
  {
    if times != [] {
      DeniedAgain(k, times[0], limit);
      DeniedUntilOldestAges(k, times[1..], limit);
    }
  }

  lemma DeniedState(k: Key, admitted: seq<int>, cutoff: int, now: int, limit: int)
    requires limit >= 1 && Remembers(k, admitted, cutoff, limit) && cutoff <= now - WINDOW_MS
    requires Acquire(k, now, limit).1.Wait?
    ensures var (next, reply) := Acquire(k, now, limit);
            && |next.scores| == limit && reply.ms == Oldest(next.scores) + WINDOW_MS - now >= 1
            && Oldest(next.scores) + WINDOW_MS <= next.expiresAt
  {
    AcquireKeepsRemembers(k, admitted, cutoff, now, limit);
    TrimMembers(Alive(k, now), now - WINDOW_MS);
  }

  /**
   A denied call is told exactly how long to wait: at least one millisecond, denied at every earlier
   instant whatever anybody else does meanwhile, and admitted at that instant if nobody else has
   taken the slot.
   */
  lemma WaitIsExact(k: Key, admitted: seq<int>, cutoff: int, now: int, limit: int, others: seq<int>)
    requires limit >= 1 && Remembers(k, admitted, cutoff, limit) && cutoff <= now - WINDOW_MS
    requires Acquire(k, now, limit).1.Wait?
    requires forall i :: 0 <= i < |others| ==> others[i] < now + Acquire(k, now, limit).1.ms
    ensures var (next, reply) := Acquire(k, now, limit);
            && reply.ms >= 1
            && AllDenied(next, others, limit)
            && Acquire(next, now + reply.ms, limit).1 == Admit
  {
    var (next, reply) := Acquire(k, now, limit);
    DeniedState(k, admitted, cutoff, now, limit);
    DeniedUntilOldestAges(next, others, limit);
    var due := now + reply.ms;
    TrimDropsSome(next.scores, due - WINDOW_MS, Oldest(next.scores));
  }
}
