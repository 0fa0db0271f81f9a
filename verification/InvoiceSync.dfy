/**
 Merging fetched invoice snapshots into the export rows
 (apps/api/src/accounting-invoice-sync/accounting-invoice-sync.processor.ts and
 apps/api/src/accounting/invoice-payment-state.service.ts). Amounts are minor units, dates day numbers.
 */
module InvoiceSync {
  import opened Wrappers

  type InvoiceId = nat

  datatype InvoiceState = DRAFT | AWAITING_APPROVAL | AWAITING_PAYMENT | PAID | VOIDED | DELETED

  datatype PaymentStatus = NOT_SYNCED | UNPAID | PART_PAID | PAID | VOID

  /** The amounts and dates the invoice facts record. */
  datatype Balance = Balance(total: int, paid: int, due: int,
    issueDate: Option<int>, dueDate: Option<int>, fullyPaidOn: Option<int>)

  datatype Facts = Facts(state: InvoiceState, balance: Balance, credited: int, rawStatus: string)

  /** A SyncedState: what one fetched record says of an invoice. */
  datatype Snapshot = Snapshot(facts: Facts, updatedAt: Option<int>, number: Option<string>)

  /** The payment columns of an export row; `facts` is None until the first sync. */
  datatype Row = Row(facts: Option<Facts>, updatedAt: Option<int>, number: Option<string>)

  datatype Record = Record(invoice: InvoiceId, snapshot: Snapshot)

  function Derive(facts: Option<Facts>): PaymentStatus {
    if facts.None? then NOT_SYNCED
    else
      var f := facts.value;
      if f.state.VOIDED? || f.state.DELETED? then PaymentStatus.VOID
      else if f.state.PAID? then PaymentStatus.PAID
      else if f.state.AWAITING_PAYMENT? && f.balance.due <= 0 && f.balance.total > 0 then PaymentStatus.PAID
      else if f.balance.paid + f.credited > 0 && f.balance.due > 0 then PART_PAID
      else UNPAID
  }

  predicate IsOpen(state: InvoiceState) {
    state.DRAFT? || state.AWAITING_APPROVAL? || state.AWAITING_PAYMENT?
  }

  predicate IsVoid(f: Facts) {
    f.state.VOIDED? || f.state.DELETED?
  }

  /** Marked paid by the provider, or approved with nothing left to pay of an amount there was. */
  predicate IsPaid(f: Facts) {
    f.state.PAID? || (f.state.AWAITING_PAYMENT? && f.balance.due <= 0 < f.balance.total)
  }

  /**
   When an invoice has each status, whatever its state and amounts, drafts and amounts that do not add
   up included. An open invoice is part paid once anything is settled while something is still due.
   */
  lemma StatusExactlyWhen(facts: Option<Facts>)
    ensures Derive(facts) == NOT_SYNCED <==> facts.None?
    ensures Derive(facts) == PaymentStatus.VOID <==> facts.Some? && IsVoid(facts.value)
    ensures Derive(facts) == PaymentStatus.PAID <==> facts.Some? && IsPaid(facts.value)
    ensures Derive(facts) == PART_PAID <==>
              facts.Some? && IsOpen(facts.value.state)
              && facts.value.balance.due > 0 && facts.value.balance.paid + facts.value.credited > 0
    ensures Derive(facts) == UNPAID <==>
              facts.Some? && IsOpen(facts.value.state) && !IsPaid(facts.value)
              && (facts.value.balance.due <= 0 || facts.value.balance.paid + facts.value.credited <= 0)
  {
  }

  /**
   Where the amounts add up: an invoice awaiting payment is paid, part paid or unpaid by what is still
   due of it, one of no amount stays unpaid, and one not yet approved is never paid.
   */
  lemma StatusByWhatIsDue(f: Facts)
    requires f.balance.total == f.balance.paid + f.credited + f.balance.due
    requires f.balance.paid >= 0 && f.credited >= 0 && f.balance.due >= 0
    ensures var status, due := Derive(Some(f)), f.balance.due;
      && (f.state.AWAITING_PAYMENT? ==>
           && (status.PAID? <==> due == 0 < f.balance.total)
           && (status.PART_PAID? <==> 0 < due < f.balance.total)
           && (status.UNPAID? <==> due == f.balance.total))
      && (f.state.DRAFT? || f.state.AWAITING_APPROVAL? ==> !status.PAID? && !status.VOID?)
  {
  }

  predicate Before(a: Option<int>, b: Option<int>) {
    a.Some? && b.Some? && a.value < b.value
  }

  /** syncedStateChanged: providerUpdatedAt is not among the fields compared. */
  predicate Changed(row: Row, next: Snapshot) {
    row.facts != Some(next.facts) || (next.number.Some? && row.number != next.number)
  }

  /** The update: an absent or empty number leaves the stored one. */
  function Written(row: Row, next: Snapshot): Row {
    Row(Some(next.facts), next.updatedAt,
        if next.number.Some? && next.number.value != "" then next.number else row.number)
  }

  /** `current` is the row as the chunk read it, `reread` the row re-read under the order's lock. */
  predicate Writes(current: Row, reread: Row, next: Snapshot) {
    !Before(next.updatedAt, current.updatedAt) && Changed(current, next) && Changed(reread, next)
  }

  function Merge(current: Row, reread: Row, next: Snapshot): Row {
    if Writes(current, reread, next) then Written(reread, next) else reread
  }

  /** With nothing in between, the row read and the row re-read are the same. */
  function Step(row: Row, next: Snapshot): Row {
    Merge(row, row, next)
  }

  function MergeAll(row: Row, snapshots: seq<Snapshot>): Row
    decreases |snapshots|
  {
    if snapshots == [] then row else MergeAll(Step(row, snapshots[0]), snapshots[1..])
  }

  ghost predicate Timed(snapshots: seq<Snapshot>) {
    forall s :: s in snapshots ==> s.updatedAt.Some?
  }

  // ----- Time -----

  predicate AtMost(a: Option<int>, b: Option<int>) {
    a.Some? ==> b.Some? && a.value <= b.value
  }

  /** A merge moves a row back in time exactly when it writes an older snapshot over what it re-read. */
  lemma GoesBackExactlyWhen(current: Row, reread: Row, next: Snapshot)
    requires next.updatedAt.Some?
    ensures !AtMost(reread.updatedAt, Merge(current, reread, next).updatedAt) <==>
      Writes(current, reread, next) && Before(next.updatedAt, reread.updatedAt)
    ensures current == reread ==> AtMost(reread.updatedAt, Merge(current, reread, next).updatedAt)
  {
  }

  lemma {:induction false} TimeNeverGoesBack(row: Row, snapshots: seq<Snapshot>)
    requires Timed(snapshots)
    ensures AtMost(row.updatedAt, MergeAll(row, snapshots).updatedAt)
    decreases |snapshots|
  {
    if snapshots != [] {
      assert snapshots[0] in snapshots;
      assert forall s :: s in snapshots[1..] ==> s in snapshots;
      TimeNeverGoesBack(Step(row, snapshots[0]), snapshots[1..]);
    }
  }

  // ----- Against last writer wins -----

  /** What the row is meant to hold: every snapshot but the older ones, written. */
  function Newest(row: Row, next: Snapshot): Row {
    if Before(next.updatedAt, row.updatedAt) then row else Written(row, next)
  }

  function NewestOf(row: Row, snapshots: seq<Snapshot>): Row
    decreases |snapshots|
  {
    if snapshots == [] then row else NewestOf(Newest(row, snapshots[0]), snapshots[1..])
  }

  predicate SameFacts(a: Row, b: Row) {
    a.facts == b.facts && a.number == b.number
  }

  /** The snapshot would put something else into the row. */
  predicate Differs(row: Row, next: Snapshot) {
    row.facts != Some(next.facts) || (next.number.Some? && next.number.value != "" && row.number != next.number)
  }

  /**
   The row takes a snapshot older than the newest one seen: the newest changed nothing, so its time was
   not stored, and the guard compares with an earlier time.
   */
  predicate Regresses(row: Row, newest: Row, next: Snapshot) {
    Before(next.updatedAt, newest.updatedAt) && !Before(next.updatedAt, row.updatedAt) && Differs(row, next)
  }

  ghost predicate FollowsThroughout(row: Row, newest: Row, snapshots: seq<Snapshot>)
    decreases |snapshots|
  {
    && SameFacts(row, newest)
    && (snapshots == [] || FollowsThroughout(Step(row, snapshots[0]), Newest(newest, snapshots[0]), snapshots[1..]))
  }

  predicate NeverRegresses(row: Row, newest: Row, snapshots: seq<Snapshot>)
    decreases |snapshots|
  {
    snapshots == [] ||
    (!Regresses(row, newest, snapshots[0])
     && NeverRegresses(Step(row, snapshots[0]), Newest(newest, snapshots[0]), snapshots[1..]))
  }

  /** The row holds the newest facts at every point of a run exactly when no step regresses. */
  lemma {:induction false} FollowsExactlyWhen(row: Row, newest: Row, snapshots: seq<Snapshot>)
    requires Timed(snapshots) && SameFacts(row, newest) && AtMost(row.updatedAt, newest.updatedAt)
    ensures FollowsThroughout(row, newest, snapshots) <==> NeverRegresses(row, newest, snapshots)
    decreases |snapshots|
  {
    if snapshots != [] {
      assert snapshots[0] in snapshots;
      assert forall s :: s in snapshots[1..] ==> s in snapshots;
      var r, n := Step(row, snapshots[0]), Newest(newest, snapshots[0]);
      if SameFacts(r, n) { FollowsExactlyWhen(r, n, snapshots[1..]); }
    }
  }

  lemma {:induction false} FollowsAtTheEnd(row: Row, newest: Row, snapshots: seq<Snapshot>)
    requires FollowsThroughout(row, newest, snapshots)
    ensures SameFacts(MergeAll(row, snapshots), NewestOf(newest, snapshots))
    decreases |snapshots|
  {
    if snapshots != [] { FollowsAtTheEnd(Step(row, snapshots[0]), Newest(newest, snapshots[0]), snapshots[1..]); }
  }

  /** Snapshots from the row's time on, none older than the one before it. */
  predicate InOrder(from: Option<int>, snapshots: seq<Snapshot>)
    decreases |snapshots|
  {
    snapshots == [] || (!Before(snapshots[0].updatedAt, from) && InOrder(snapshots[0].updatedAt, snapshots[1..]))
  }

  lemma {:induction false} InOrderNeverRegresses(row: Row, newest: Row, snapshots: seq<Snapshot>)
    requires Timed(snapshots) && InOrder(newest.updatedAt, snapshots)
    ensures NeverRegresses(row, newest, snapshots)
    decreases |snapshots|
  {
    if snapshots != [] {
      assert forall s :: s in snapshots[1..] ==> s in snapshots;
      InOrderNeverRegresses(Step(row, snapshots[0]), Newest(newest, snapshots[0]), snapshots[1..]);
    }
  }

  /** Snapshots that arrive in order leave the row with the newest facts. */
  lemma InOrderConverges(row: Row, snapshots: seq<Snapshot>)
    requires Timed(snapshots) && InOrder(row.updatedAt, snapshots)
    ensures SameFacts(MergeAll(row, snapshots), NewestOf(row, snapshots))
  {
    InOrderNeverRegresses(row, row, snapshots);
    FollowsExactlyWhen(row, row, snapshots);
    FollowsAtTheEnd(row, row, snapshots);
  }

  /** Out of order they need not: the newest, repeating the stored facts, leaves its time unrecorded. */
  lemma LateSnapshotWins(facts: Facts, other: Facts, t: int)
    requires facts != other
    ensures var row := Row(None, None, None);
      var snapshots := [Snapshot(facts, Some(t), None), Snapshot(facts, Some(t + 2), None),
        Snapshot(other, Some(t + 1), None)];
      MergeAll(row, snapshots).facts == Some(other) && NewestOf(row, snapshots).facts == Some(facts)
  {
    var a, b, c := Snapshot(facts, Some(t), None), Snapshot(facts, Some(t + 2), None),
      Snapshot(other, Some(t + 1), None);
    var row := Row(None, None, None);
    assert [a, b, c][1..] == [b, c] && [b, c][1..] == [c] && [c][1..] == [];
    assert MergeAll(row, [a, b, c]) == MergeAll(Step(row, a), [b, c])
      == MergeAll(Step(row, a), [c]) == Step(Step(row, a), c);
    assert NewestOf(row, [a, b, c]) == NewestOf(Newest(row, a), [b, c]) == NewestOf(Newest(Newest(row, a), b), [c])
        == Newest(Newest(Newest(row, a), b), c);
  }

  // ----- Any order -----

  /** Each snapshot once, and no time twice. */
  ghost predicate DistinctTimes(snapshots: seq<Snapshot>) {
    && Timed(snapshots)
    && (forall s :: s in snapshots ==> multiset(snapshots)[s] == 1)
    && (forall s, t :: s in snapshots && t in snapshots && s.updatedAt == t.updatedAt ==> s == t)
  }

  ghost predicate IsNewest(n: Snapshot, snapshots: seq<Snapshot>) {
    n in snapshots && forall s :: s in snapshots && s != n ==> Before(s.updatedAt, n.updatedAt)
  }

  predicate Blank(number: Option<string>) {
    number.None? || number.value == ""
  }

  /**
   The newest of the snapshots is newer than the row they meet. That row may have been synced before, and
   may carry the number stored when the invoice was created; an empty one is never stored.
   */
  ghost predicate Meets(start: Row, n: Snapshot, snapshots: seq<Snapshot>) {
    && Timed(snapshots) && IsNewest(n, snapshots)
    && start.number != Some("") && (start.updatedAt.Some? ==> Before(start.updatedAt, n.updatedAt))
  }

  /** The order leaves the row it starts from with the snapshot's facts and time. */
  predicate EndsAt(start: Row, order: seq<Snapshot>, n: Snapshot) {
    var row := MergeAll(start, order);
    row.facts == Some(n.facts) && row.updatedAt == n.updatedAt
  }

  predicate EndsWithFacts(start: Row, order: seq<Snapshot>, facts: Facts) {
    MergeAll(start, order).facts == Some(facts)
  }

  /** A snapshot older than the row the others start from is never written. */
  predicate InTime(s: Snapshot, start: Row) {
    !Before(s.updatedAt, start.updatedAt)
  }

  lemma {:induction false} OlderLeaveTheRow(row: Row, snapshots: seq<Snapshot>)
    requires forall s :: s in snapshots ==>
      Before(s.updatedAt, row.updatedAt) || (row.facts == Some(s.facts) && s.number.None?)
    ensures MergeAll(row, snapshots) == row
    decreases |snapshots|
  {
    if snapshots != [] {
      assert snapshots[0] in snapshots;
      assert forall s :: s in snapshots[1..] ==> s in snapshots;
      OlderLeaveTheRow(row, snapshots[1..]);
    }
  }

  /** Once the newest is in, its facts and time stay. */
  lemma {:induction false} NewestStays(row: Row, snapshots: seq<Snapshot>, n: Snapshot)
    requires row.facts == Some(n.facts) && row.updatedAt == n.updatedAt
    requires forall s :: s in snapshots && s != n ==> Before(s.updatedAt, n.updatedAt)
    ensures var last := MergeAll(row, snapshots); last.facts == Some(n.facts) && last.updatedAt == n.updatedAt
    decreases |snapshots|
  {
    if snapshots != [] {
      assert snapshots[0] in snapshots;
      assert forall s :: s in snapshots[1..] ==> s in snapshots;
      NewestStays(Step(row, snapshots[0]), snapshots[1..], n);
    }
  }

  /** A snapshot that can be written, no later than this time, carries the number. */
  ghost predicate NumberBy(start: Row, snapshots: seq<Snapshot>, number: Option<string>, time: Option<int>) {
    exists t :: t in snapshots && InTime(t, start) && t.number == number && !Before(time, t.updatedAt)
  }

  /** The number is known by this time: the row had it, or a snapshot no later carries it. */
  ghost predicate Known(start: Row, snapshots: seq<Snapshot>, number: Option<string>, time: Option<int>) {
    start.number == number || NumberBy(start, snapshots, number, time)
  }

  /**
   After this snapshot the newest can find nothing to write: its facts are there, and so is its number,
   if it carries one, from this snapshot or, where this one has none, known by then.
   */
  ghost predicate Hides(s: Snapshot, start: Row, n: Snapshot, snapshots: seq<Snapshot>) {
    && s in snapshots && InTime(s, start) && s != n && s.facts == n.facts
    && (n.number.Some? ==>
          && !Blank(n.number)
          && (s.number == n.number || (Blank(s.number) && Known(start, snapshots, n.number, s.updatedAt))))
  }

  /** The newest has something to write to the row it finds, and none of the others hides it. */
  ghost predicate Shows(start: Row, n: Snapshot, snapshots: seq<Snapshot>) {
    Changed(start, n) && forall s :: s in snapshots ==> !Hides(s, start, n, snapshots)
  }

  /** The newest has something to write yet. */
  ghost predicate Awaits(row: Row, start: Row, n: Snapshot, snapshots: seq<Snapshot>) {
    && AtMost(start.updatedAt, row.updatedAt) && (row.updatedAt.Some? ==> Before(row.updatedAt, n.updatedAt))
    && row.number != Some("") && Changed(row, n)
    && (row.number == start.number || (row.updatedAt.Some? && NumberBy(start, snapshots, row.number, row.updatedAt)))
  }

  /** The newest arrives, whatever comes before and after it, where none hides it. */
  lemma {:induction false} NewestArrives(row: Row, order: seq<Snapshot>, start: Row, n: Snapshot,
      snapshots: seq<Snapshot>)
    requires Meets(start, n, snapshots) && Shows(start, n, snapshots)
    requires n in order && forall s :: s in order ==> s in snapshots
    requires Awaits(row, start, n, snapshots)
    ensures var last := MergeAll(row, order); last.facts == Some(n.facts) && last.updatedAt == n.updatedAt
    decreases |order|
  {
    var next := Step(row, order[0]);
    assert order[0] in order;
    assert forall s :: s in order[1..] ==> s in order;
    if order[0] == n {
      NewestStays(next, order[1..], n);
    } else {
      assert n in order[1..];
      NewestArrives(next, order[1..], start, n, snapshots);
    }
  }

  lemma {:induction false} TimeIsReported(row: Row, snapshots: seq<Snapshot>, time: Option<int>)
    requires row.updatedAt != time && forall s :: s in snapshots ==> s.updatedAt != time
    ensures MergeAll(row, snapshots).updatedAt != time
    decreases |snapshots|
  {
    if snapshots != [] {
      assert snapshots[0] in snapshots;
      assert forall s :: s in snapshots[1..] ==> s in snapshots;
      TimeIsReported(Step(row, snapshots[0]), snapshots[1..], time);
    }
  }

  function Remove(snapshots: seq<Snapshot>, s: Snapshot): (rest: seq<Snapshot>)
    ensures s in snapshots ==> multiset(snapshots) == multiset(rest) + multiset{s}
  {
    if snapshots == [] then []
    else
      assert snapshots == [snapshots[0]] + snapshots[1..];
      if snapshots[0] == s then snapshots[1..] else [snapshots[0]] + Remove(snapshots[1..], s)
  }

  lemma InRemoved(snapshots: seq<Snapshot>, s: Snapshot)
    requires s in snapshots
    ensures forall x :: x in Remove(snapshots, s) ==> x in snapshots
  {
    assert forall x :: x in Remove(snapshots, s) ==> x in multiset(Remove(snapshots, s)) && x in multiset(snapshots);
  }

  lemma InOrderOf(a: seq<Snapshot>, b: seq<Snapshot>)
    requires multiset(a) == multiset(b)
    ensures forall s :: s in a <==> s in b
  {
    assert forall s :: s in a <==> s in multiset(a);
    assert forall s :: s in b <==> s in multiset(b);
  }

  lemma MergeTwo(row: Row, s: Snapshot, t: Snapshot, rest: seq<Snapshot>)
    ensures MergeAll(row, [s, t] + rest) == MergeAll(Step(Step(row, s), t), rest)
  {
    assert ([s, t] + rest)[1..] == [t] + rest && ([t] + rest)[1..] == rest;
  }

  lemma RemoveTwo(snapshots: seq<Snapshot>, s: Snapshot, n: Snapshot) returns (rest: seq<Snapshot>)
    requires s in snapshots && n in snapshots && s != n
    ensures multiset(snapshots) == multiset(rest) + multiset{s, n}
  {
    rest := Remove(Remove(snapshots, n), s);
    assert s in multiset(snapshots) && s in multiset(Remove(snapshots, n));
  }

  lemma NoneAtItsTime(snapshots: seq<Snapshot>, rest: seq<Snapshot>, n: Snapshot)
    requires IsNewest(n, snapshots) && multiset(snapshots)[n] == 1
    requires multiset(rest) + multiset{n} <= multiset(snapshots)
    ensures forall x :: x in rest ==> x in snapshots && x.updatedAt != n.updatedAt
  {
    forall x | x in rest
      ensures x in snapshots && x.updatedAt != n.updatedAt
    {
      assert x in multiset(rest) && (multiset(rest) + multiset{n})[x] <= multiset(snapshots)[x];
      assert x in multiset(snapshots);
    }
  }

  /** The newest right after a snapshot, or a row, that leaves it nothing to write. */
  lemma RepeatBeforeLosesTheTime(row: Row, snapshots: seq<Snapshot>, n: Snapshot, rest: seq<Snapshot>)
    requires IsNewest(n, snapshots) && multiset(snapshots)[n] == 1
    requires multiset(rest) + multiset{n} <= multiset(snapshots)
    requires !Changed(row, n) && row.updatedAt != n.updatedAt
    ensures MergeAll(row, [n] + rest).updatedAt != n.updatedAt
  {
    NoneAtItsTime(snapshots, rest, n);
    assert ([n] + rest)[1..] == rest;
    TimeIsReported(row, rest, n.updatedAt);
  }

  lemma TheRowHidesIt(start: Row, snapshots: seq<Snapshot>, n: Snapshot) returns (order: seq<Snapshot>)
    requires Meets(start, n, snapshots) && multiset(snapshots)[n] == 1 && !Changed(start, n)
    ensures multiset(order) == multiset(snapshots) && !EndsAt(start, order, n)
  {
    var rest := Remove(snapshots, n);
    order := [n] + rest;
    RepeatBeforeLosesTheTime(start, snapshots, n, rest);
  }

  lemma OneHidesIt(start: Row, snapshots: seq<Snapshot>, n: Snapshot, s: Snapshot) returns (order: seq<Snapshot>)
    requires Meets(start, n, snapshots) && multiset(snapshots)[n] == 1
    requires s in snapshots && InTime(s, start) && s != n && s.facts == n.facts
    requires n.number.Some? ==> !Blank(n.number)
    requires n.number.Some? ==> s.number == n.number || (Blank(s.number) && start.number == n.number)
    ensures multiset(order) == multiset(snapshots) && !EndsAt(start, order, n)
  {
    var rest := RemoveTwo(snapshots, s, n);
    order := [s] + ([n] + rest);
    assert order[1..] == [n] + rest;
    RepeatBeforeLosesTheTime(Step(start, s), snapshots, n, rest);
  }

  lemma TwoHideIt(start: Row, snapshots: seq<Snapshot>, n: Snapshot, s: Snapshot, t: Snapshot)
    returns (order: seq<Snapshot>)
    requires Meets(start, n, snapshots) && multiset(snapshots)[n] == 1 && !Blank(n.number)
    requires s in snapshots && InTime(s, start) && s.facts == n.facts && Blank(s.number)
    requires t in snapshots && InTime(t, start) && t.facts != n.facts
    requires t.number == n.number && !Before(s.updatedAt, t.updatedAt)
    ensures multiset(order) == multiset(snapshots) && !EndsAt(start, order, n)
  {
    var others := RemoveTwo(snapshots, s, n);
    assert t in multiset(snapshots) && t in multiset(others);
    var rest := Remove(others, t);
    order := [t, s] + ([n] + rest);
    MergeTwo(start, t, s, [n] + rest);
    RepeatBeforeLosesTheTime(Step(Step(start, t), s), snapshots, n, rest);
  }

  lemma HiddenLosesTheTime(start: Row, snapshots: seq<Snapshot>, n: Snapshot, s: Snapshot)
    returns (order: seq<Snapshot>)
    requires Meets(start, n, snapshots) && multiset(snapshots)[n] == 1 && Hides(s, start, n, snapshots)
    ensures multiset(order) == multiset(snapshots) && !EndsAt(start, order, n)
  {
    if n.number.None? || s.number == n.number || start.number == n.number {
      order := OneHidesIt(start, snapshots, n, s);
    } else {
      var t :| t in snapshots && InTime(t, start) && t.number == n.number && !Before(s.updatedAt, t.updatedAt);
      if t.facts == n.facts {
        order := OneHidesIt(start, snapshots, n, t);
      } else {
        order := TwoHideIt(start, snapshots, n, s, t);
      }
    }
  }

  /**
   From any row, every order of the snapshots, the newest among them once, ends with its facts and time if
   and only if it says something new to that row and none of the others hides it. An older one with its
   facts does, if neither or both carry its number, or the row has the number already.
   */
  lemma EveryOrderEndsAtNewestExactlyWhen(start: Row, snapshots: seq<Snapshot>, n: Snapshot)
    requires Meets(start, n, snapshots) && multiset(snapshots)[n] == 1
    ensures (forall order :: multiset(order) == multiset(snapshots) ==> EndsAt(start, order, n)) <==>
      Shows(start, n, snapshots)
  {
    if !Changed(start, n) {
      var order := TheRowHidesIt(start, snapshots, n);
    } else if s :| s in snapshots && Hides(s, start, n, snapshots) {
      var order := HiddenLosesTheTime(start, snapshots, n, s);
    } else {
      forall order | multiset(order) == multiset(snapshots)
        ensures EndsAt(start, order, n)
      {
        InOrderOf(order, snapshots);
        NewestArrives(start, order, start, n, snapshots);
      }
    }
  }

  /** Delivered any number of times each, snapshots whose newest shows leave the same row in any two orders. */
  lemma AnyOrderConverges(start: Row, a: seq<Snapshot>, b: seq<Snapshot>, n: Snapshot)
    requires Meets(start, n, a) && Shows(start, n, a)
    requires forall s :: s in a <==> s in b
    ensures MergeAll(start, a).facts == MergeAll(start, b).facts == Some(n.facts)
    ensures MergeAll(start, a).updatedAt == MergeAll(start, b).updatedAt == n.updatedAt
  {
    NewestArrives(start, a, start, n, a);
    NewestArrives(start, b, start, n, a);
  }

  // ----- The facts alone -----

  /** Those that report the facts, or those that do not. */
  function Reporting(snapshots: seq<Snapshot>, facts: Facts, same: bool): (part: seq<Snapshot>)
    ensures forall s :: s in part ==> s in snapshots && (s.facts == facts) == same
  {
    if snapshots == [] then []
    else
      var rest := Reporting(snapshots[1..], facts, same);
      if (snapshots[0].facts == facts) == same then [snapshots[0]] + rest else rest
  }

  lemma {:induction false} ReportingSplits(snapshots: seq<Snapshot>, facts: Facts)
    ensures multiset(snapshots) ==
      multiset(Reporting(snapshots, facts, true)) + multiset(Reporting(snapshots, facts, false))
  {
    if snapshots != [] {
      ReportingSplits(snapshots[1..], facts);
      assert snapshots == [snapshots[0]] + snapshots[1..];
    }
  }

  ghost predicate NumberedBy(snapshots: seq<Snapshot>, number: string) {
    forall s :: s in snapshots ==> s.number.None? || s.number == Some(number)
  }

  /** The snapshot reports the facts, is not older than the row, and later than any that reports others. */
  ghost predicate Settles(u: Snapshot, start: Row, facts: Facts, snapshots: seq<Snapshot>) {
    && u in snapshots && InTime(u, start) && u.facts == facts
    && forall r :: r in snapshots && r.facts != facts ==> Before(r.updatedAt, u.updatedAt)
  }

  ghost predicate NoneSettlesNumbered(start: Row, facts: Facts, snapshots: seq<Snapshot>) {
    forall u :: Settles(u, start, facts, snapshots) ==> u.number.None?
  }

  /**
   The invoice reported the facts, then others; and those that report the facts after that may change
   nothing, the number being known by the first report or carried by none of them.
   */
  ghost predicate ComesBack(s: Snapshot, r: Snapshot, start: Row, facts: Facts, number: string,
      snapshots: seq<Snapshot>)
  {
    && s in snapshots && InTime(s, start) && s.facts == facts
    && r in snapshots && r.facts != facts && !Before(r.updatedAt, s.updatedAt)
    && (Known(start, snapshots, Some(number), s.updatedAt) || NoneSettlesNumbered(start, facts, snapshots))
  }

  /** The same where the first report is the row itself. */
  ghost predicate RowComesBack(r: Snapshot, start: Row, facts: Facts, number: string, snapshots: seq<Snapshot>) {
    && start.facts == Some(facts)
    && r in snapshots && InTime(r, start) && r.facts != facts
    && (start.number == Some(number) || NoneSettlesNumbered(start, facts, snapshots))
  }

  ghost predicate NeverComesBack(start: Row, facts: Facts, number: string, snapshots: seq<Snapshot>) {
    && (forall s, r :: !ComesBack(s, r, start, facts, number, snapshots))
    && (forall r :: !RowComesBack(r, start, facts, number, snapshots))
  }

  /** The facts are in from a time after which no others were reported. */
  lemma {:induction false} FactsStay(row: Row, order: seq<Snapshot>, facts: Facts)
    requires row.facts == Some(facts) && Timed(order)
    requires forall r :: r in order && r.facts != facts ==> Before(r.updatedAt, row.updatedAt)
    ensures MergeAll(row, order).facts == Some(facts)
    decreases |order|
  {
    if order != [] {
      assert order[0] in order;
      assert forall s :: s in order[1..] ==> s in order;
      FactsStay(Step(row, order[0]), order[1..], facts);
    }
  }

  /** No snapshot that settles the facts has been written, and the next of them with something to say is. */
  ghost predicate Unsettled(row: Row, start: Row, facts: Facts, number: string, snapshots: seq<Snapshot>) {
    && AtMost(start.updatedAt, row.updatedAt)
    && (forall u :: Settles(u, start, facts, snapshots) ==> !Before(u.updatedAt, row.updatedAt))
    && (row.number.Some? ==>
          && row.number == Some(number)
          && (start.number == Some(number)
              || (row.updatedAt.Some? && NumberBy(start, snapshots, Some(number), row.updatedAt))))
    && (row.facts == Some(facts) ==> row.number.None? && !NoneSettlesNumbered(start, facts, snapshots))
  }

  lemma StaysUnsettled(row: Row, s: Snapshot, start: Row, facts: Facts, number: string, snapshots: seq<Snapshot>)
    requires Timed(snapshots) && NumberedBy(snapshots, number) && number != ""
    requires Unsettled(row, start, facts, number, snapshots) && s in snapshots && !Settles(s, start, facts, snapshots)
    requires forall r :: !ComesBack(s, r, start, facts, number, snapshots)
    ensures Unsettled(Step(row, s), start, facts, number, snapshots)
  {
    if Writes(row, row, s) {
      if s.number.Some? { assert NumberBy(start, snapshots, Some(number), s.updatedAt); }
      if s.facts == facts {
        var r :| r in snapshots && r.facts != facts && !Before(r.updatedAt, s.updatedAt);
        assert !ComesBack(s, r, start, facts, number, snapshots);
      }
    }
  }

  /** Where the facts do not come back to what they were, the one with something to say is written. */
  lemma {:induction false} FactsArrive(row: Row, order: seq<Snapshot>, u: Snapshot, start: Row, number: string,
      snapshots: seq<Snapshot>)
    requires Timed(snapshots) && NumberedBy(snapshots, number) && number != ""
    requires forall s, r :: !ComesBack(s, r, start, u.facts, number, snapshots)
    requires u in order && forall s :: s in order ==> s in snapshots
    requires Settles(u, start, u.facts, snapshots)
    requires u.number.Some? || NoneSettlesNumbered(start, u.facts, snapshots)
    requires Unsettled(row, start, u.facts, number, snapshots)
    ensures MergeAll(row, order).facts == Some(u.facts)
    decreases |order|
  {
    var first, next := order[0], Step(row, order[0]);
    assert first in order;
    assert forall s :: s in order[1..] ==> s in order;
    if Settles(first, start, u.facts, snapshots) {
      if next == Written(row, first) {
        FactsStay(next, order[1..], u.facts);
      } else {
        assert u in order[1..];
        FactsArrive(next, order[1..], u, start, number, snapshots);
      }
    } else {
      assert u in order[1..];
      StaysUnsettled(row, first, start, u.facts, number, snapshots);
      FactsArrive(next, order[1..], u, start, number, snapshots);
    }
  }

  /** The newest of some snapshots. */
  lemma {:induction false} NewestExists(snapshots: seq<Snapshot>) returns (n: Snapshot)
    requires snapshots != [] && Timed(snapshots)
    requires forall s, t :: s in snapshots && t in snapshots && s.updatedAt == t.updatedAt ==> s == t
    ensures IsNewest(n, snapshots)
  {
    n := snapshots[0];
    if |snapshots| > 1 {
      assert forall s :: s in snapshots[1..] ==> s in snapshots;
      var later := NewestExists(snapshots[1..]);
      assert snapshots == [snapshots[0]] + snapshots[1..];
      if Before(n.updatedAt, later.updatedAt) || n == later { n := later; }
    }
  }

  lemma {:induction false} MergeAppend(row: Row, first: seq<Snapshot>, second: seq<Snapshot>)
    ensures MergeAll(row, first + second) == MergeAll(MergeAll(row, first), second)
    decreases |first|
  {
    if first == [] {
      assert first + second == second;
    } else {
      assert (first + second)[1..] == first[1..] + second;
      MergeAppend(Step(row, first[0]), first[1..], second);
    }
  }

  /** The facts are in, from no later than the latest report of others, and none that settles can change them. */
  ghost predicate Stuck(row: Row, start: Row, facts: Facts, number: string, latest: Snapshot, snapshots: seq<Snapshot>)
  {
    && row.facts == Some(facts) && AtMost(start.updatedAt, row.updatedAt) && !Before(latest.updatedAt, row.updatedAt)
    && (row.number == Some(number) || NoneSettlesNumbered(start, facts, snapshots))
  }

  /** A report of others that is in the snapshots, and the latest there. */
  ghost predicate IsLatestOther(latest: Snapshot, facts: Facts, snapshots: seq<Snapshot>) {
    && latest in snapshots && latest.facts != facts
    && forall r :: r in snapshots && r.facts != facts ==> r == latest || Before(r.updatedAt, latest.updatedAt)
  }

  lemma {:induction false} StaysStuck(row: Row, part: seq<Snapshot>, start: Row, facts: Facts, number: string,
      latest: Snapshot, snapshots: seq<Snapshot>)
    requires Timed(snapshots) && NumberedBy(snapshots, number) && number != ""
    requires IsLatestOther(latest, facts, snapshots)
    requires forall x :: x in part ==> x in snapshots && x.facts == facts
    requires Stuck(row, start, facts, number, latest, snapshots)
    ensures Stuck(MergeAll(row, part), start, facts, number, latest, snapshots)
    decreases |part|
  {
    if part != [] {
      var x := part[0];
      assert x in part;
      assert forall y :: y in part[1..] ==> y in part;
      assert Settles(x, start, facts, snapshots) ==> !Changed(row, x);
      StaysStuck(Step(row, x), part[1..], start, facts, number, latest, snapshots);
    }
  }

  /** From such a row the latest report of others gets in, and what is older stays out. */
  lemma StuckLosesTheFacts(row: Row, part: seq<Snapshot>, rest: seq<Snapshot>, start: Row, facts: Facts,
      number: string, latest: Snapshot, snapshots: seq<Snapshot>)
    requires Timed(snapshots) && NumberedBy(snapshots, number) && number != ""
    requires IsLatestOther(latest, facts, snapshots)
    requires forall x :: x in part ==> x in snapshots && x.facts == facts
    requires forall x :: x in rest ==> Before(x.updatedAt, latest.updatedAt)
    requires Stuck(row, start, facts, number, latest, snapshots)
    ensures MergeAll(row, part + ([latest] + rest)).facts == Some(latest.facts)
  {
    StaysStuck(row, part, start, facts, number, latest, snapshots);
    MergeAppend(row, part, [latest] + rest);
    assert ([latest] + rest)[1..] == rest;
    OlderLeaveTheRow(Step(MergeAll(row, part), latest), rest);
  }

  lemma InSplit(snapshots: seq<Snapshot>, facts: Facts, s: Snapshot)
    requires s in snapshots
    ensures s in Reporting(snapshots, facts, s.facts == facts)
  {
    ReportingSplits(snapshots, facts);
    assert s in multiset(snapshots);
    assert s in multiset(Reporting(snapshots, facts, true)) || s in multiset(Reporting(snapshots, facts, false));
  }

  /** Those that report the facts, the latest of the others, and the rest of them. */
  lemma SplitAtLatest(snapshots: seq<Snapshot>, facts: Facts, r: Snapshot)
    returns (same: seq<Snapshot>, latest: Snapshot, rest: seq<Snapshot>)
    requires DistinctTimes(snapshots) && r in snapshots && r.facts != facts
    ensures multiset(snapshots) == multiset(same) + multiset{latest} + multiset(rest)
    ensures forall x :: x in snapshots && x.facts == facts ==> x in same
    ensures forall x :: x in same ==> x in snapshots && x.facts == facts
    ensures forall x :: x in snapshots && x.facts != facts ==> x == latest || x in rest
    ensures IsLatestOther(latest, facts, snapshots)
    ensures forall x :: x in rest ==> Before(x.updatedAt, latest.updatedAt)
  {
    ReportingSplits(snapshots, facts);
    same := Reporting(snapshots, facts, true);
    var others := Reporting(snapshots, facts, false);
    forall x | x in snapshots
      ensures x in Reporting(snapshots, facts, x.facts == facts)
    {
      InSplit(snapshots, facts, x);
    }
    latest := NewestExists(others);
    rest := Remove(others, latest);
    assert latest in multiset(others) && latest in multiset(snapshots);
    InRemoved(others, latest);
    forall x | x in others
      ensures x == latest || x in rest
    {
      assert x in multiset(others);
    }
  }

  /** All that report what the row holds, then the latest of the others. */
  lemma RowFirstLosesTheFacts(start: Row, snapshots: seq<Snapshot>, facts: Facts, number: string, r: Snapshot)
    returns (order: seq<Snapshot>)
    requires DistinctTimes(snapshots) && NumberedBy(snapshots, number) && number != ""
    requires RowComesBack(r, start, facts, number, snapshots)
    ensures multiset(order) == multiset(snapshots) && !EndsWithFacts(start, order, facts)
  {
    var same, latest, rest := SplitAtLatest(snapshots, facts, r);
    order := same + ([latest] + rest);
    StuckLosesTheFacts(start, same, rest, start, facts, number, latest, snapshots);
  }

  /** The first report, then all that report the same, then the latest of the others. */
  lemma ReportFirstLosesTheFacts(start: Row, snapshots: seq<Snapshot>, facts: Facts, number: string, s: Snapshot,
      r: Snapshot)
    returns (order: seq<Snapshot>)
    requires DistinctTimes(snapshots) && NumberedBy(snapshots, number) && number != ""
    requires s in snapshots && InTime(s, start) && s.facts == facts
    requires r in snapshots && r.facts != facts && !Before(r.updatedAt, s.updatedAt)
    requires s.number == Some(number) || start.number == Some(number) || NoneSettlesNumbered(start, facts, snapshots)
    requires start.number.None? || start.number == Some(number)
    ensures multiset(order) == multiset(snapshots) && !EndsWithFacts(start, order, facts)
  {
    var same, latest, rest := SplitAtLatest(snapshots, facts, r);
    var repeats := Remove(same, s);
    InRemoved(same, s);
    order := [s] + (repeats + ([latest] + rest));
    assert order[1..] == repeats + ([latest] + rest);
    StuckLosesTheFacts(Step(start, s), repeats, rest, start, facts, number, latest, snapshots);
  }

  /** The number first, from a report of others, then as before. */
  lemma NumberFirstLosesTheFacts(start: Row, snapshots: seq<Snapshot>, facts: Facts, number: string, s: Snapshot,
      r: Snapshot, t: Snapshot)
    returns (order: seq<Snapshot>)
    requires DistinctTimes(snapshots) && NumberedBy(snapshots, number) && number != ""
    requires s in snapshots && InTime(s, start) && s.facts == facts
    requires r in snapshots && r.facts != facts && !Before(r.updatedAt, s.updatedAt)
    requires t in snapshots && InTime(t, start) && t.facts != facts
    requires t.number == Some(number) && !Before(s.updatedAt, t.updatedAt)
    ensures multiset(order) == multiset(snapshots) && !EndsWithFacts(start, order, facts)
  {
    var same, latest, older := SplitAtLatest(snapshots, facts, r);
    var repeats, rest := Remove(same, s), Remove(older, t);
    InRemoved(same, s);
    assert t in older;
    InRemoved(older, t);
    order := [t, s] + (repeats + ([latest] + rest));
    MergeTwo(start, t, s, repeats + ([latest] + rest));
    assert !Before(latest.updatedAt, s.updatedAt);
    StuckLosesTheFacts(Step(Step(start, t), s), repeats, rest, start, facts, number, latest, snapshots);
  }

  lemma ComingBackLosesTheFacts(start: Row, snapshots: seq<Snapshot>, facts: Facts, number: string, s: Snapshot,
      r: Snapshot)
    returns (order: seq<Snapshot>)
    requires DistinctTimes(snapshots) && NumberedBy(snapshots, number) && number != ""
    requires start.number.None? || start.number == Some(number)
    requires ComesBack(s, r, start, facts, number, snapshots)
    ensures multiset(order) == multiset(snapshots) && !EndsWithFacts(start, order, facts)
  {
    if s.number == Some(number) || start.number == Some(number) || NoneSettlesNumbered(start, facts, snapshots) {
      order := ReportFirstLosesTheFacts(start, snapshots, facts, number, s, r);
    } else {
      var t :| t in snapshots && InTime(t, start) && t.number == Some(number) && !Before(s.updatedAt, t.updatedAt);
      if t.facts == facts {
        order := ReportFirstLosesTheFacts(start, snapshots, facts, number, t, r);
      } else {
        order := NumberFirstLosesTheFacts(start, snapshots, facts, number, s, r, t);
      }
    }
  }

  /** Where they never come back, every order brings the newest facts in, or leaves them there. */
  lemma NewestFactsArrive(start: Row, order: seq<Snapshot>, snapshots: seq<Snapshot>, n: Snapshot, number: string)
    requires Meets(start, n, snapshots) && NumberedBy(snapshots, number) && number != ""
    requires start.number.None? || start.number == Some(number)
    requires NeverComesBack(start, n.facts, number, snapshots) && forall s :: s in order <==> s in snapshots
    ensures EndsWithFacts(start, order, n.facts)
  {
    if start.facts == Some(n.facts) && forall r :: r in snapshots && r.facts != n.facts ==> !InTime(r, start) {
      FactsStay(start, order, n.facts);
    } else {
      if start.facts == Some(n.facts) {
        var r :| r in snapshots && r.facts != n.facts && InTime(r, start);
        assert !RowComesBack(r, start, n.facts, number, snapshots);
      }
      assert Settles(n, start, n.facts, snapshots);
      var u := n;
      if !NoneSettlesNumbered(start, n.facts, snapshots) {
        u :| Settles(u, start, n.facts, snapshots) && u.number.Some?;
      }
      FactsArrive(start, order, u, start, number, snapshots);
    }
  }

  /**
   Of an invoice with one number, which the row and the snapshots carry or not, the facts alone come
   through in every order if and only if it did not come back to them: reported, or on the row, before
   others were, where the number was known by then, or is carried by no later report of them.
   */
  lemma EveryOrderEndsWithNewestFactsExactlyWhen(start: Row, snapshots: seq<Snapshot>, n: Snapshot, number: string)
    requires Meets(start, n, snapshots) && DistinctTimes(snapshots) && NumberedBy(snapshots, number) && number != ""
    requires start.number.None? || start.number == Some(number)
    ensures (forall order :: multiset(order) == multiset(snapshots) ==> EndsWithFacts(start, order, n.facts)) <==>
      NeverComesBack(start, n.facts, number, snapshots)
  {
    if s, r :| ComesBack(s, r, start, n.facts, number, snapshots) {
      var order := ComingBackLosesTheFacts(start, snapshots, n.facts, number, s, r);
    } else if r :| RowComesBack(r, start, n.facts, number, snapshots) {
      var order := RowFirstLosesTheFacts(start, snapshots, n.facts, number, r);
    } else {
      forall order | multiset(order) == multiset(snapshots)
        ensures EndsWithFacts(start, order, n.facts)
      {
        InOrderOf(order, snapshots);
        NewestFactsArrive(start, order, snapshots, n, number);
      }
    }
  }

  // ----- The invoice number -----

  predicate EndsWithNumber(start: Row, order: seq<Snapshot>, number: string) {
    MergeAll(start, order).number == Some(number)
  }

  lemma {:induction false} NumberStays(row: Row, snapshots: seq<Snapshot>, number: string)
    requires NumberedBy(snapshots, number) && row.number == Some(number)
    ensures MergeAll(row, snapshots).number == Some(number)
    decreases |snapshots|
  {
    if snapshots != [] {
      assert snapshots[0] in snapshots;
      assert forall s :: s in snapshots[1..] ==> s in snapshots;
      NumberStays(Step(row, snapshots[0]), snapshots[1..], number);
    }
  }

  lemma {:induction false} NumberArrives(row: Row, snapshots: seq<Snapshot>, n: Snapshot, number: string)
    requires NumberedBy(snapshots, number) && number != "" && IsNewest(n, snapshots) && n.number == Some(number)
    requires !Before(n.updatedAt, row.updatedAt) && Timed(snapshots)
    ensures MergeAll(row, snapshots).number == Some(number)
    decreases |snapshots|
  {
    var next := Step(row, snapshots[0]);
    assert snapshots[0] in snapshots;
    assert forall s :: s in snapshots[1..] ==> s in snapshots;
    if snapshots[0] == n {
      NumberStays(next, snapshots[1..], number);
    } else {
      assert n in snapshots[1..];
      NumberArrives(next, snapshots[1..], n, number);
    }
  }

  /** Nothing can be written to the row but with the number, and something will be. */
  ghost predicate FirstWriteNumbers(start: Row, facts: Facts, snapshots: seq<Snapshot>) {
    && start.facts == Some(facts)
    && (exists t :: t in snapshots && InTime(t, start) && t.number.Some?)
    && (forall r :: r in snapshots && InTime(r, start) && r.facts != facts ==> r.number.Some?)
  }

  /** The row as it was, until a snapshot with the number is written. */
  lemma {:induction false} FirstWriteArrives(start: Row, order: seq<Snapshot>, facts: Facts, t: Snapshot,
      number: string)
    requires NumberedBy(order, number) && number != "" && t in order
    requires start.facts == Some(facts) && start.number.None? && InTime(t, start) && t.number.Some?
    requires forall r :: r in order && InTime(r, start) && r.facts != facts ==> r.number.Some?
    ensures MergeAll(start, order).number == Some(number)
    decreases |order|
  {
    var next := Step(start, order[0]);
    assert order[0] in order;
    assert forall s :: s in order[1..] ==> s in order;
    if next == start {
      assert t in order[1..];
      FirstWriteArrives(start, order[1..], facts, t, number);
    } else {
      NumberStays(next, order[1..], number);
    }
  }

  /** Written first, the newest leaves no number, and none after it does. */
  lemma NewestFirstLosesTheNumber(start: Row, snapshots: seq<Snapshot>, n: Snapshot, number: string)
    returns (order: seq<Snapshot>)
    requires Meets(start, n, snapshots) && DistinctTimes(snapshots)
    requires start.number.None? && n.number.None? && start.facts != Some(n.facts)
    ensures multiset(order) == multiset(snapshots) && !EndsWithNumber(start, order, number)
  {
    var rest := Remove(snapshots, n);
    NoneAtItsTime(snapshots, rest, n);
    order := [n] + rest;
    assert order[1..] == rest;
    OlderLeaveTheRow(Step(start, n), rest);
  }

  /** A report of others first, without the number, and then the newest. */
  lemma OtherFirstLosesTheNumber(start: Row, snapshots: seq<Snapshot>, n: Snapshot, r: Snapshot, number: string)
    returns (order: seq<Snapshot>)
    requires Meets(start, n, snapshots) && DistinctTimes(snapshots)
    requires start.number.None? && n.number.None? && start.facts == Some(n.facts)
    requires r in snapshots && InTime(r, start) && r.facts != n.facts && r.number.None?
    ensures multiset(order) == multiset(snapshots) && !EndsWithNumber(start, order, number)
  {
    var rest := RemoveTwo(snapshots, r, n);
    NoneAtItsTime(snapshots, rest, n);
    order := [r, n] + rest;
    MergeTwo(start, r, n, rest);
    OlderLeaveTheRow(Step(Step(start, r), n), rest);
  }

  /** Without a snapshot that brings it in, the row has no number. */
  lemma {:induction false} NoneBringsTheNumber(start: Row, row: Row, order: seq<Snapshot>, number: string)
    requires row.number.None? && AtMost(start.updatedAt, row.updatedAt) && Timed(order)
    requires forall t :: t in order && InTime(t, start) ==> t.number.None?
    ensures MergeAll(row, order).number.None?
    decreases |order|
  {
    if order != [] {
      assert order[0] in order;
      assert forall s :: s in order[1..] ==> s in order;
      NoneBringsTheNumber(start, Step(row, order[0]), order[1..], number);
    }
  }

  /** The number is there when every order is through. */
  ghost predicate NumberIsSafe(start: Row, n: Snapshot, number: string, snapshots: seq<Snapshot>) {
    start.number == Some(number) || n.number == Some(number) || FirstWriteNumbers(start, n.facts, snapshots)
  }

  /**
   The invoice's number is there after every order if and only if the row or the newest snapshot carries
   it, or the newest says nothing new to the row and whatever is written to it first carries the number.
   */
  lemma EveryOrderKeepsTheNumberExactlyWhen(start: Row, snapshots: seq<Snapshot>, n: Snapshot, number: string)
    requires Meets(start, n, snapshots) && DistinctTimes(snapshots) && NumberedBy(snapshots, number) && number != ""
    requires start.number.None? || start.number == Some(number)
    ensures (forall order :: multiset(order) == multiset(snapshots) ==> EndsWithNumber(start, order, number)) <==>
      NumberIsSafe(start, n, number, snapshots)
  {
    if NumberIsSafe(start, n, number, snapshots) {
      forall order | multiset(order) == multiset(snapshots)
        ensures EndsWithNumber(start, order, number)
      {
        InOrderOf(order, snapshots);
        if start.number == Some(number) {
          NumberStays(start, order, number);
        } else if n.number == Some(number) {
          NumberArrives(start, order, n, number);
        } else {
          var t :| t in snapshots && InTime(t, start) && t.number.Some?;
          FirstWriteArrives(start, order, n.facts, t, number);
        }
      }
    } else if start.facts != Some(n.facts) {
      var order := NewestFirstLosesTheNumber(start, snapshots, n, number);
    } else if r :| r in snapshots && InTime(r, start) && r.facts != n.facts && r.number.None? {
      var order := OtherFirstLosesTheNumber(start, snapshots, n, r, number);
    } else {
      NoneBringsTheNumber(start, start, snapshots, number);
      assert !EndsWithNumber(start, snapshots, number) && multiset(snapshots) == multiset(snapshots);
    }
  }
}
