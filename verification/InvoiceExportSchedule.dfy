/**
 When attempts to export an order stay apart: what the export row's status and its stale age rely on
 (apps/api/src/accounting-invoice-export/accounting-invoice-export.processor.ts).
 */
module InvoiceExportSchedule {
  import opened Wrappers
  import opened InvoiceExport

  // ----- What keeps attempts from overlapping -----

  /** The attempt has claimed the row and not finished. */
  predicate UnderWay(k: Worker) {
    match k.pc
    case Claiming => false
    case Finding => false
    case Taking(_, _) => false
    case Done => false
    case _ => true
  }

  predicate Busy(k: Worker) {
    UnderWay(k) || k.wire.Some?
  }

  predicate Claims(w: World, act: Action) {
    act.Does? && act.a in w.workers && act.event.Take? && w.workers[act.a].pc.Taking?
    && Holds(w.shared.row, w.workers[act.a].pc.rowId)
  }

  /**
   What the schedule must see to: claims do not race, the row being still claimable when the claim
   writes it; nothing is busy when a stale row is taken; a create given up on is settled before the retry
   that the backoff delays; and the row is only lost while nothing is busy.
   */
  ghost predicate Spaced(w: World, act: Action) {
    && (Claims(w, act) ==>
          var row := w.shared.row.value;
          && row.status != COMPLETED && !InFlight(row, act.event.now)
          && (row.status == PROCESSING ==> forall b :: b in w.workers ==> !Busy(w.workers[b]))
          && (row.status != PROCESSING ==> NonePending(w.workers)))
    && (act.LoseRow? ==> forall b :: b in w.workers ==> !Busy(w.workers[b]))
  }

  ghost predicate SpacedRun(w: World, acts: seq<Action>)
    decreases |acts|
  {
    acts == [] || (Spaced(w, acts[0]) && SpacedRun(Step(w, acts[0]), acts[1..]))
  }

  /** The attempt under way owns the row, which says so. */
  ghost predicate OwnsRow(s: Shared, k: Worker) {
    UnderWay(k) ==>
      k.pc.rowId < s.nextRowId && s.row.Some? && s.row.value.id == k.pc.rowId && s.row.value.status == PROCESSING
  }

  ghost predicate OneBusy(w: World) {
    && (forall a, b | a in w.workers && b in w.workers :: Busy(w.workers[a]) && Busy(w.workers[b]) ==> a == b)
    && (forall a :: a in w.workers ==> OwnsRow(w.shared, w.workers[a]))
    && (w.shared.row.None? ==> forall a :: a in w.workers ==> !Busy(w.workers[a]))
  }

  /** Only an attempt that inserts or takes the row becomes busy. */
  lemma BusyBefore(w: World, act: Action, a: Attempt)
    requires Valid(w) && a in Step(w, act).workers && Busy(Step(w, act).workers[a])
    ensures (a in w.workers && Busy(w.workers[a])) ||
      (act.Does? && act.a == a && a in w.workers && (Claims(w, act) || (w.shared.row.None? && act.event.Insert?)))
  {
  }

  lemma SpacedStepKeepsOwner(w: World, act: Action, b: Attempt)
    requires Valid(w) && OneBusy(w) && Spaced(w, act) && b in Step(w, act).workers
    ensures OwnsRow(Step(w, act).shared, Step(w, act).workers[b])
  {
    assert ValidShared(w.shared);
    if b in w.workers { assert OwnsRow(w.shared, w.workers[b]); }
    if act.Does? && act.a in w.workers {
      assert OwnsRow(w.shared, w.workers[act.a]);
      if b in w.workers && UnderWay(w.workers[b]) && act.a != b {
        assert Busy(w.workers[b]) && !UnderWay(w.workers[act.a]);
      }
    }
  }

  lemma SpacedStepKeepsOneBusy(w: World, act: Action)
    requires Valid(w) && OneBusy(w) && Spaced(w, act)
    ensures OneBusy(Step(w, act))
  {
    var w' := Step(w, act);
    forall a, b | a in w'.workers && b in w'.workers && Busy(w'.workers[a]) && Busy(w'.workers[b])
      ensures a == b
    {
      BusyBefore(w, act, a);
      BusyBefore(w, act, b);
    }
    forall b | b in w'.workers
      ensures OwnsRow(w'.shared, w'.workers[b])
    {
      SpacedStepKeepsOwner(w, act, b);
    }
    if w'.shared.row.None? {
      forall b | b in w'.workers
        ensures !Busy(w'.workers[b])
      {
        if Busy(w'.workers[b]) { BusyBefore(w, act, b); }
      }
    }
  }

  lemma {:induction false} SpacedRunIsLone(w: World, acts: seq<Action>)
    requires Valid(w) && OneBusy(w) && SpacedRun(w, acts)
    ensures LoneLookups(w, acts)
    decreases |acts|
  {
    if acts != [] {
      if FindsNone(w, acts[0]) {
        assert ValidWorker(w.shared, w.workers[acts[0].a]) && Busy(w.workers[acts[0].a]);
        forall b | b in w.workers
          ensures Pending(w.workers[b]).None?
        {
          assert Pending(w.workers[b]).Some? ==> Busy(w.workers[b]);
        }
      }
      StepKeepsValid(w, acts[0]);
      SpacedStepKeepsOneBusy(w, acts[0]);
      SpacedRunIsLone(Step(w, acts[0]), acts[1..]);
    }
  }

  /** In a spaced run the row's status keeps attempts apart and no order is invoiced twice. */
  lemma SpacedAttemptsNeverInvoiceTwice(acts: seq<Action>)
    requires SpacedRun(Fresh, acts)
    ensures GuardedRun(Fresh, acts) && |LiveInvoices(Run(Fresh, acts).shared.ledger)| <= 1
  {
    SpacedRunIsLone(Fresh, acts);
    LoneRunIsGuarded(Fresh, acts);
    NeverInvoicedTwice(acts);
  }

  // ----- What the stale age is for -----

  /** A step and the time at which it is taken, which is the time it writes. */
  datatype Moment = Moment(at: int, act: Action)

  predicate OnTime(m: Moment) {
    m.act.Does? ==>
      match m.act.event
      case Insert(now) => now == m.at
      case Find(now) => now == m.at
      case Take(now) => now == m.at
      case Save(now) => now == m.at
      case Release(now) => now == m.at
      case RecordFailure(now) => now == m.at
      case _ => true
  }

  /** The step makes its attempt busy: it inserts the row or takes it. */
  predicate Begins(w: World, act: Action) {
    Claims(w, act) ||
    (act.Does? && act.a in w.workers && act.event.Insert? && w.workers[act.a].pc.Claiming? && w.shared.row.None?)
  }

  /** When each attempt claimed the row. */
  function Since(w: World, since: map<Attempt, int>, m: Moment): map<Attempt, int> {
    if Begins(w, m.act) then since[m.act.a := m.at] else since
  }

  /**
   What the schedule must see to, by the clock: an attempt and the create it sent are over, whatever
   becomes of them, within PROCESSING_STALE_MS of its claim. The rest is as in Spaced; the times of
   different workers' clocks need not be ordered.
   */
  ghost predicate Punctual(w: World, since: map<Attempt, int>, m: Moment) {
    && OnTime(m)
    && (forall b :: b in w.workers && b in since && Busy(w.workers[b]) ==> m.at - since[b] < PROCESSING_STALE_MS)
    && (Claims(w, m.act) ==>
          var row := w.shared.row.value;
          && row.status != COMPLETED && !InFlight(row, m.at)
          && (row.status != PROCESSING ==> NonePending(w.workers)))
    && (m.act.LoseRow? ==> forall b :: b in w.workers ==> !Busy(w.workers[b]))
  }

  ghost predicate PunctualRun(w: World, since: map<Attempt, int>, moments: seq<Moment>)
    decreases |moments|
  {
    moments == [] ||
    (Punctual(w, since, moments[0])
     && PunctualRun(Step(w, moments[0].act), Since(w, since, moments[0]), moments[1..]))
  }

  function Acts(moments: seq<Moment>): seq<Action> {
    if moments == [] then [] else [moments[0].act] + Acts(moments[1..])
  }

  /** A row that is PROCESSING was last written by the claim of the attempt that is busy. */
  ghost predicate DatesClaim(w: World, since: map<Attempt, int>) {
    forall b :: b in w.workers && Busy(w.workers[b]) ==>
      b in since
      && (w.shared.row.Some? && w.shared.row.value.status == PROCESSING ==> w.shared.row.value.updatedAt == since[b])
  }

  lemma PunctualIsSpaced(w: World, since: map<Attempt, int>, m: Moment)
    requires DatesClaim(w, since) && Punctual(w, since, m)
    ensures Spaced(w, m.act)
  {
  }

  lemma PunctualKeepsDates(w: World, since: map<Attempt, int>, m: Moment)
    requires Valid(w) && OneBusy(w) && DatesClaim(w, since) && Punctual(w, since, m) && Spaced(w, m.act)
    ensures DatesClaim(Step(w, m.act), Since(w, since, m))
  {
    var w', since' := Step(w, m.act), Since(w, since, m);
    forall b | b in w'.workers && Busy(w'.workers[b])
      ensures b in since'
      ensures w'.shared.row.Some? && w'.shared.row.value.status == PROCESSING ==>
        w'.shared.row.value.updatedAt == since'[b]
    {
      BusyBefore(w, m.act, b);
      if b in w.workers && Busy(w.workers[b]) && m.act.Does? && m.act.a in w.workers {
        assert UnderWay(w.workers[m.act.a]) ==> Busy(w.workers[m.act.a]);
      }
    }
  }

  lemma {:induction false} PunctualRunIsSpaced(w: World, since: map<Attempt, int>, moments: seq<Moment>)
    requires Valid(w) && OneBusy(w) && DatesClaim(w, since) && PunctualRun(w, since, moments)
    ensures SpacedRun(w, Acts(moments))
    decreases |moments|
  {
    if moments != [] {
      var m := moments[0];
      PunctualIsSpaced(w, since, m);
      PunctualKeepsDates(w, since, m);
      StepKeepsValid(w, m.act);
      SpacedStepKeepsOneBusy(w, m.act);
      PunctualRunIsSpaced(Step(w, m.act), Since(w, since, m), moments[1..]);
      assert Acts(moments)[1..] == Acts(moments[1..]);
    }
  }

  /**
   While claims do not race, attempts and their creates are over within PROCESSING_STALE_MS of the claim
   and a retry waits for the create before it, no order is invoiced twice.
   */
  lemma PunctualAttemptsNeverInvoiceTwice(moments: seq<Moment>)
    requires PunctualRun(Fresh, map[], moments)
    ensures GuardedRun(Fresh, Acts(moments)) && |LiveInvoices(Run(Fresh, Acts(moments)).shared.ledger)| <= 1
  {
    PunctualRunIsSpaced(Fresh, map[], moments);
    SpacedAttemptsNeverInvoiceTwice(Acts(moments));
  }
}
