/**
 The export processor as the source writes it: methods that change the export row and the
 provider's ledger in place
 (apps/api/src/accounting-invoice-export/accounting-invoice-export.processor.ts).

 Each call also advances a ghost run of the state machine in InvoiceExport, so everything proved
 about every run holds of the rows and invoices these methods leave behind.
 */
module InvoiceExportProcessor {
  import opened Wrappers
  import opened JobFailure
  import opened InvoiceExport

  /** How the create answered. An unanswered create may or may not have reached the ledger yet. */
  datatype CreateAnswer = Created | Rejected | NotSent(error: JobError) | NoAnswer(error: JobError, settled: bool)

  /** Everything one attempt meets outside the processor. */
  datatype Circumstances = Circumstances(
    now: int,
    invoiceable: bool,
    eligible: bool,
    request: Request,
    lookupError: Option<JobError>,
    answer: CreateAnswer,
    rejection: JobError,
    saves: bool,
    releases: bool,
    attemptsMade: nat,
    attempts: nat)

  predicate Claimable(row: Option<ExportRow>, now: int) {
    row.None? || (row.value.status != COMPLETED && !InFlight(row.value, now))
  }

  function Claimed(row: Option<ExportRow>, nextRowId: nat, now: int): ExportRow {
    if row.None? then InsertRow(nextRowId, now)
    else TakeRow(row, row.value.id, row.value.status != PROCESSING, now).value
  }

  /** Our own call budget ran out and the queue has an attempt left to wait for. */
  predicate Deferred(c: Circumstances, err: JobError) {
    err.Provider? && err.error.budgetExhausted && c.attemptsMade + 1 < c.attempts
  }

  /** The error the lookup or the create ends in, if either does. */
  function CallError(ledger: seq<Invoice>, c: Circumstances): Option<JobError> {
    if c.lookupError.Some? then c.lookupError
    else if HasLive(ledger) || c.answer.Created? then None
    else if c.answer.Rejected? then Some(c.rejection)
    else Some(c.answer.error)
  }

  /** The call that failed never left this side. */
  predicate Unsent(c: Circumstances) {
    c.lookupError.Some? || c.answer.NotSent?
  }

  /**
   The queue is to run the job again. An order that may not be invoiced is left alone; after a failed
   call the error decides, and a permanent one waits for the user; an invoice the provider handed over
   leaves only its saving to be retried.
   */
  predicate Retries(ledger: seq<Invoice>, c: Circumstances) {
    && c.eligible
    && match CallError(ledger, c)
       case None => !c.saves
       case Some(err) => err.Unexpected? || err.error.transient || (Unsent(c) && Deferred(c, err))
  }

  /** The row ends PENDING: the call budget put the attempt off, or the claim was given back unsaved. */
  predicate PutBack(ledger: seq<Invoice>, c: Circumstances) {
    && c.eligible
    && match CallError(ledger, c)
       case None => !c.saves && c.releases
       case Some(err) => Unsent(c) && Deferred(c, err)
  }

  ghost predicate OnlyMoved(a: Attempt, before: map<Attempt, Worker>, after: map<Attempt, Worker>) {
    a in before && a in after && after == before[a := after[a]]
  }

  /** What recordCompleted leaves of a row whose invoice exists. */
  ghost predicate Recorded(claimed: ExportRow, invoice: nat, c: Circumstances, row: Option<ExportRow>) {
    row == Some(
      if c.saves then claimed.(status := COMPLETED, updatedAt := c.now, invoice := Some(invoice))
      else if c.releases then claimed.(status := PENDING, updatedAt := c.now)
      else claimed)
  }

  function Failed(claimed: ExportRow, deferred: bool, now: int): Option<ExportRow> {
    Some(claimed.(status := if deferred then PENDING else FAILED, updatedAt := now))
  }

  /** The create was carried out, so its invoice is on the ledger. */
  predicate ReachedLedger(answer: CreateAnswer) {
    answer.Created? || (answer.NoAnswer? && answer.settled)
  }

  /** The attempt claims the row, passes its checks and hears the lookup's answer. */
  predicate GetsThrough(row: Option<ExportRow>, c: Circumstances) {
    c.invoiceable && Claimable(row, c.now) && c.eligible && c.lookupError.None?
  }

  /** What a claimed attempt does, from the state its claim left to the state it leaves. */
  ghost predicate Exported(before: Shared, c: Circumstances, after: Shared)
    requires before.row.Some?
  {
    var claimed := before.row.value;
    var key := Key(claimed.id, c.request);
    var found := FindLive(before.ledger);
    var (ledger, remembered, invoice) := CreateAt(before.ledger, before.remembered, key);
    && after.nextRowId == before.nextRowId
    && (!c.eligible ==>
          after.row == Failed(claimed, false, c.now) && after.ledger == before.ledger)
    && (c.eligible && c.lookupError.Some? ==>
          after.row == Failed(claimed, Deferred(c, c.lookupError.value), c.now) && after.ledger == before.ledger)
    && (c.eligible && c.lookupError.None? && found.Some? ==>
          Recorded(claimed, found.value, c, after.row) && after.ledger == before.ledger)
    && (c.eligible && c.lookupError.None? && found.None? ==>
          && after.ledger == (if ReachedLedger(c.answer) then ledger else before.ledger)
          && after.remembered == (if ReachedLedger(c.answer) then remembered else before.remembered)
          && (c.answer.Created? ==> Recorded(claimed, invoice, c, after.row))
          && (!c.answer.Created? ==>
                after.row == Failed(claimed, c.answer.NotSent? && Deferred(c, c.answer.error), c.now)))
  }

  class ExportProcessor {
    var row: Option<ExportRow>
    var nextRowId: nat
    var ledger: seq<Invoice>
    var remembered: map<Key, nat>
    ghost var world: World
    ghost var history: seq<Action>

    ghost function Now(): Shared reads this {
      Shared(row, nextRowId, ledger, remembered)
    }

    /** The fields are the shared state of a run of the protocol. */
    ghost predicate Tracked() reads this {
      world == Run(Fresh, history) && world.shared == Now()
    }

    /** No attempt is under way and no create is pending. */
    ghost predicate Quiet() reads this {
      forall a :: a in world.workers ==> world.workers[a].pc.Done? && world.workers[a].wire.None?
    }

    /** At most one live invoice, and none at all while a create is still pending. */
    ghost predicate Sound() reads this {
      Tracked() && AtMostOneLive(ledger) && OnePending(ledger, world.workers)
    }

    constructor ()
      ensures Sound() && Quiet() && row == None && ledger == []
    {
      row, nextRowId, ledger, remembered := None, 0, [], map[];
      world, history := Fresh, [];
    }

    ghost method Advance(act: Action)
      requires world == Run(Fresh, history)
      modifies this`world, this`history
      ensures world == Step(old(world), act) && history == old(history) + [act]
      ensures world == Run(Fresh, history)
    {
      RunAppend(Fresh, history, [act]);
      assert Run(Run(Fresh, history), [act]) == Step(world, act);
      world, history := Step(world, act), history + [act];
    }

    /** claimExport: null when there is nothing to do, else the id of the row now PROCESSING. */
    method ClaimExport(ghost a: Attempt, now: int) returns (rowId: Option<nat>)
      requires Tracked() && a in world.workers && world.workers[a] == Worker(Claiming, None, false, false)
      modifies this`row, this`nextRowId, this`world, this`history
      ensures Tracked()
      ensures OnlyMoved(a, old(world.workers), world.workers)
      ensures rowId.Some? <==> Claimable(old(row), now)
      ensures rowId.Some? ==> row == Some(Claimed(old(row), old(nextRowId), now)) && row.value.id == rowId.value
      ensures rowId.Some? ==> world.workers[a] == Worker(Running(rowId.value), None, false, false)
      ensures rowId.None? ==> row == old(row) && nextRowId == old(nextRowId)
      ensures rowId.None? ==> world.workers[a] == Worker(Done, None, false, false)
    {
      if row.None? {
        rowId := Some(nextRowId);
        row := Some(InsertRow(nextRowId, now));
        nextRowId := nextRowId + 1;
        Advance(Does(a, Insert(now)));
        return;
      }
      Advance(Does(a, Insert(now)));
      Advance(Does(a, Find(now)));
      var existing := row.value;
      match existing.status {
        case COMPLETED =>
          return None;
        case PROCESSING =>
          if now - existing.updatedAt < PROCESSING_STALE_MS {
            return None;
          }
          row := Some(existing.(status := PROCESSING, updatedAt := now));
        case _ =>
          row := Some(existing.(status := PROCESSING, updatedAt := now, retryCount := existing.retryCount + 1));
      }
      Advance(Does(a, Take(now)));
      rowId := Some(existing.id);
    }

    /** The failure path: FAILED, or back to PENDING when our own call budget deferred the attempt. */
    method RecordFailed(ghost a: Attempt, rowId: nat, deferred: bool, now: int)
      requires Tracked() && a in world.workers && world.workers[a].pc == Failing(rowId, deferred)
      requires Holds(row, rowId)
      modifies this`row, this`world, this`history
      ensures Tracked()
      ensures OnlyMoved(a, old(world.workers), world.workers) && world.workers[a].pc.Done?
      ensures world.workers[a].wire == old(world.workers)[a].wire
      ensures row == Some(old(row).value.(status := if deferred then PENDING else FAILED, updatedAt := now))
    {
      if deferred {
        row := Some(row.value.(status := PENDING, updatedAt := now));
      } else {
        row := Some(row.value.(status := FAILED, updatedAt := now));
      }
      Advance(Does(a, RecordFailure(now)));
    }

    /** The transaction that records the provider's invoice. */
    method SaveResult(ghost a: Attempt, rowId: nat, invoice: nat, ghost adopted: bool, now: int)
      requires Tracked() && a in world.workers && world.workers[a].pc == Holding(rowId, invoice, adopted)
      requires Holds(row, rowId)
      modifies this`row, this`world, this`history
      ensures Tracked()
      ensures OnlyMoved(a, old(world.workers), world.workers)
      ensures world.workers[a] == old(world.workers)[a].(pc := Done)
      ensures row == Some(old(row).value.(status := COMPLETED, updatedAt := now, invoice := Some(invoice)))
    {
      row := Some(row.value.(status := COMPLETED, updatedAt := now, invoice := Some(invoice)));
      Advance(Does(a, Save(now)));
    }

    /** The update that gives the claim back after a failed save. */
    method ReleaseClaim(ghost a: Attempt, rowId: nat, now: int)
      requires Tracked() && a in world.workers && world.workers[a].pc == Unsaved(rowId)
      requires Holds(row, rowId)
      modifies this`row, this`world, this`history
      ensures Tracked()
      ensures OnlyMoved(a, old(world.workers), world.workers)
      ensures world.workers[a] == old(world.workers)[a].(pc := Done)
      ensures row == Some(old(row).value.(status := PENDING, updatedAt := now))
    {
      row := Some(row.value.(status := PENDING, updatedAt := now));
      Advance(Does(a, Release(now)));
    }

    /**
     recordCompleted. If the result cannot be saved the claim is released, best effort, and the
     error rethrown; the row never becomes FAILED here.
     */
    method RecordCompleted(ghost a: Attempt, rowId: nat, invoice: nat, ghost adopted: bool, c: Circumstances)
      returns (rethrown: bool)
      requires Tracked() && a in world.workers && world.workers[a].pc == Holding(rowId, invoice, adopted)
      requires Holds(row, rowId)
      modifies this`row, this`world, this`history
      ensures Tracked()
      ensures OnlyMoved(a, old(world.workers), world.workers)
      ensures world.workers[a] == old(world.workers)[a].(pc := Done)
      ensures rethrown <==> !c.saves
      ensures Recorded(old(row).value, invoice, c, row)
    {
      if c.saves {
        SaveResult(a, rowId, invoice, adopted, c.now);
        return false;
      }
      Advance(Does(a, SaveFails));
      if c.releases {
        ReleaseClaim(a, rowId, c.now);
      } else {
        Advance(Does(a, ReleaseFails));
      }
      rethrown := true;
    }

    /** The provider carries a create out. */
    method Create(ghost a: Attempt, ghost rowId: nat, key: Key) returns (invoice: nat)
      requires Tracked() && a in world.workers
      requires world.workers[a] == Worker(Waiting(rowId), Some(key), false, false)
      modifies this`ledger, this`remembered, this`world, this`history
      ensures Tracked() && OnlyMoved(a, old(world.workers), world.workers)
      ensures (ledger, remembered, invoice) == CreateAt(old(ledger), old(remembered), key)
      ensures world.workers[a] == Worker(Answered(rowId, Some(invoice)), None, false, false)
    {
      if key in remembered {
        invoice := remembered[key];
      } else {
        invoice := |ledger|;
        remembered := remembered[key := invoice];
        ledger := ledger + [Invoice(key, true)];
      }
      Advance(Does(a, Settle));
    }

    ghost method SendCreate(a: Attempt, rowId: nat, key: Key)
      requires Tracked() && a in world.workers
      requires world.workers[a] == Worker(Creating(rowId, key), None, false, false)
      modifies this`world, this`history
      ensures Tracked() && OnlyMoved(a, old(world.workers), world.workers)
      ensures world.workers[a] == Worker(Waiting(rowId), Some(key), false, false)
    {
      Advance(Does(a, Send));
    }

    ghost method HearReply(a: Attempt, rowId: nat, reply: Option<nat>)
      requires Tracked() && a in world.workers
      requires world.workers[a] == Worker(Answered(rowId, reply), None, false, false)
      modifies this`world, this`history
      ensures Tracked() && OnlyMoved(a, old(world.workers), world.workers)
      ensures reply.Some? ==> world.workers[a] == Worker(Holding(rowId, reply.value, false), None, true, false)
      ensures reply.None? ==> world.workers[a] == Worker(Failing(rowId, false), None, false, false)
    {
      Advance(Does(a, Deliver));
    }

    ghost method RejectCreate(a: Attempt, rowId: nat, key: Key)
      requires Tracked() && a in world.workers
      requires world.workers[a] == Worker(Waiting(rowId), Some(key), false, false)
      modifies this`world, this`history
      ensures Tracked() && OnlyMoved(a, old(world.workers), world.workers)
      ensures world.workers[a] == Worker(Answered(rowId, None), None, false, false)
    {
      Advance(Does(a, Refuse));
    }

    ghost method FailCall(a: Attempt, rowId: nat, err: JobError, c: Circumstances)
      requires Tracked() && a in world.workers && !world.workers[a].handed && !world.workers[a].failed
      requires (world.workers[a].pc.Asking? || world.workers[a].pc.Creating?
                || world.workers[a].pc.Waiting? || world.workers[a].pc.Answered?)
               && world.workers[a].pc.rowId == rowId
      modifies this`world, this`history
      ensures Tracked() && OnlyMoved(a, old(world.workers), world.workers)
      ensures var unsent := old(world.workers)[a].pc.Asking? || old(world.workers)[a].pc.Creating?;
              world.workers[a] ==
                Worker(Failing(rowId, unsent && Deferred(c, err)), old(world.workers)[a].wire, false, false)
    {
      Advance(Does(a, CallFails(err, c.attemptsMade, c.attempts)));
    }

    /** createInvoice, answered as `c.answer` says. */
    method CreateInvoice(ghost a: Attempt, rowId: nat, key: Key, c: Circumstances) returns (result: Option<nat>)
      requires Tracked() && a in world.workers
      requires world.workers[a] == Worker(Creating(rowId, key), None, false, false)
      modifies this`ledger, this`remembered, this`world, this`history
      ensures Tracked() && OnlyMoved(a, old(world.workers), world.workers)
      ensures ReachedLedger(c.answer) ==>
                (ledger, remembered) ==
                  (CreateAt(old(ledger), old(remembered), key).0, CreateAt(old(ledger), old(remembered), key).1)
      ensures !ReachedLedger(c.answer) ==> ledger == old(ledger) && remembered == old(remembered)
      ensures result.Some? <==> c.answer.Created?
      ensures result.Some? ==>
                result.value == CreateAt(old(ledger), old(remembered), key).2
                && world.workers[a] == Worker(Holding(rowId, result.value, false), None, true, false)
      ensures result.None? ==>
                world.workers[a].pc == Failing(rowId, c.answer.NotSent? && Deferred(c, c.answer.error))
      ensures world.workers[a].wire.Some? <==> c.answer.NoAnswer? && !c.answer.settled
    {
      result := None;
      if c.answer.NotSent? {
        FailCall(a, rowId, c.answer.error, c);
        return;
      }
      SendCreate(a, rowId, key);
      if c.answer.Rejected? {
        RejectCreate(a, rowId, key);
        HearReply(a, rowId, None);
      } else if c.answer.Created? {
        var invoice := Create(a, rowId, key);
        HearReply(a, rowId, Some(invoice));
        result := Some(invoice);
      } else {
        if c.answer.settled {
          var _ := Create(a, rowId, key);
        }
        FailCall(a, rowId, c.answer.error, c);
      }
    }

    /** The lookup, and the create that directly follows it when the lookup finds nothing. */
    method FindOrCreate(ghost a: Attempt, rowId: nat, key: Key, c: Circumstances) returns (rethrown: bool)
      requires Tracked() && a in world.workers && Holds(row, rowId) && key == Key(rowId, c.request)
      requires world.workers[a] == Worker(Asking(rowId, key), None, false, false)
      requires c.eligible && c.lookupError.None?
      modifies this`row, this`ledger, this`remembered, this`world, this`history
      ensures Tracked() && OnlyMoved(a, old(world.workers), world.workers) && world.workers[a].pc.Done?
      ensures Exported(old(Now()), c, Now())
      ensures rethrown <==> Retries(old(ledger), c)
      ensures world.workers[a].wire.Some? ==> ledger == old(ledger) && !HasLive(ledger)
      ensures ledger == old(ledger)
           || (!HasLive(old(ledger)) && ledger == CreateAt(old(ledger), old(remembered), key).0)
    {
      var existing := FindLive(ledger);
      HearLookup(a, rowId, key);
      if existing.Some? {
        rethrown := RecordCompleted(a, rowId, existing.value, true, c);
        return;
      }
      var result := CreateInvoice(a, rowId, key, c);
      if result.Some? {
        rethrown := RecordCompleted(a, rowId, result.value, false, c);
        return;
      }
      var err := if c.answer.Rejected? then c.rejection else c.answer.error;
      var verdict := Classify(err, c.attemptsMade, c.attempts);
      var deferred := c.answer.NotSent? && verdict.budgetWait && !verdict.lastAttempt;
      RecordFailed(a, rowId, deferred, c.now);
      rethrown := deferred || !verdict.permanent;
    }

    ghost method HearLookup(a: Attempt, rowId: nat, key: Key)
      requires Tracked() && a in world.workers
      requires world.workers[a] == Worker(Asking(rowId, key), None, false, false)
      modifies this`world, this`history
      ensures Tracked() && OnlyMoved(a, old(world.workers), world.workers)
      ensures var found := FindLive(ledger);
              world.workers[a] ==
                if found.Some? then Worker(Holding(rowId, found.value, true), None, true, false)
                else Worker(Creating(rowId, key), None, false, false)
    {
      Advance(Does(a, Lookup));
    }

    /** runExport, on the row the claim took. */
    method RunExport(ghost a: Attempt, rowId: nat, c: Circumstances) returns (rethrown: bool)
      requires Tracked() && a in world.workers && Holds(row, rowId)
      requires world.workers[a] == Worker(Running(rowId), None, false, false)
      modifies this`row, this`ledger, this`remembered, this`world, this`history
      ensures Tracked() && OnlyMoved(a, old(world.workers), world.workers) && world.workers[a].pc.Done?
      ensures Exported(old(Now()), c, Now())
      ensures rethrown <==> Retries(old(ledger), c)
      ensures world.workers[a].wire.Some? ==> ledger == old(ledger) && !HasLive(ledger)
      ensures ledger == old(ledger)
           || (!HasLive(old(ledger)) && ledger == CreateAt(old(ledger), old(remembered), Key(rowId, c.request)).0)
    {
      if !c.eligible {
        Advance(Does(a, Ineligible));
        RecordFailed(a, rowId, false, c.now);
        return false;
      }
      var key := Key(rowId, c.request);
      Advance(Does(a, Assemble(c.request)));
      if c.lookupError.Some? {
        var err := c.lookupError.value;
        FailCall(a, rowId, err, c);
        var verdict := Classify(err, c.attemptsMade, c.attempts);
        var deferred := verdict.budgetWait && !verdict.lastAttempt;
        RecordFailed(a, rowId, deferred, c.now);
        return deferred || !verdict.permanent;
      }
      rethrown := FindOrCreate(a, rowId, key, c);
    }

    ghost method Begin(a: Attempt, invoiceable: bool)
      requires Tracked() && a !in world.workers
      modifies this`world, this`history
      ensures Tracked()
      ensures var completed := row.Some? && row.value.status == COMPLETED;
              world.workers == old(world.workers)[
                a := Worker(if invoiceable && !completed then Claiming else Done, None, false, false)]
    {
      Advance(Start(a, invoiceable));
    }

    /** One job from its checks to its last write. */
    method ClaimAndRun(ghost a: Attempt, c: Circumstances) returns (rethrown: bool)
      requires Tracked() && a !in world.workers
      modifies this
      ensures Tracked()
      ensures a in world.workers && world.workers == old(world.workers)[a := world.workers[a]]
      ensures world.workers[a].pc.Done?
      ensures c.invoiceable && Claimable(old(row), c.now) ==>
                Exported(
                  Shared(Some(Claimed(old(row), old(nextRowId), c.now)), nextRowId, old(ledger), old(remembered)),
                  c, Now())
      ensures c.invoiceable && Claimable(old(row), c.now) ==> (rethrown <==> Retries(old(ledger), c))
      ensures !(c.invoiceable && Claimable(old(row), c.now)) ==> Now() == old(Now()) && !rethrown
      ensures world.workers[a].wire.Some? ==> ledger == old(ledger) && !HasLive(ledger)
      ensures ledger == old(ledger)
           || (!HasLive(old(ledger)) && exists key :: ledger == CreateAt(old(ledger), old(remembered), key).0)
    {
      var completed := row.Some? && row.value.status == COMPLETED;
      Begin(a, c.invoiceable);
      if !c.invoiceable || completed {
        return false;
      }
      var rowId := ClaimExport(a, c.now);
      if rowId.None? {
        return false;
      }
      rethrown := RunExport(a, rowId.value, c);
    }

    /**
     process, with nothing else in between; other attempts and their creates may still be pending around
     it. Where the invoice exists, an attempt that gets through adopts it; one that was handed an invoice
     never leaves the row FAILED; and begun when earlier attempts are over and their creates settled, it
     keeps to one live invoice.
     */
    method Process(ghost a: Attempt, c: Circumstances) returns (rethrown: bool)
      requires Tracked() && a !in world.workers
      modifies this
      ensures Tracked()
      ensures a in world.workers && world.workers == old(world.workers)[a := world.workers[a]]
      ensures world.workers[a].pc.Done?
      ensures c.invoiceable && Claimable(old(row), c.now) ==>
                Exported(
                  Shared(Some(Claimed(old(row), old(nextRowId), c.now)), nextRowId, old(ledger), old(remembered)),
                  c, Now())
      ensures c.invoiceable && Claimable(old(row), c.now) ==> (rethrown <==> Retries(old(ledger), c))
      ensures !(c.invoiceable && Claimable(old(row), c.now)) ==> Now() == old(Now()) && !rethrown
      ensures c.invoiceable && Claimable(old(row), c.now) ==>
                (row.Some? && row.value.status == PENDING <==> PutBack(old(ledger), c))
      ensures GetsThrough(old(row), c) && c.saves && HasLive(old(ledger)) ==>
                row.Some? && row.value.status == COMPLETED && row.value.invoice == FindLive(old(ledger))
                && ledger == old(ledger)
      ensures GetsThrough(old(row), c) && (HasLive(old(ledger)) || c.answer.Created?) ==>
                row.Some? && row.value.status != FAILED
      ensures old(Sound() && Quiet()) ==> Sound()
    {
      rethrown := ClaimAndRun(a, c);
    }

    /** A create abandoned by its attempt is carried out, or refused, by the provider. */
    method SettleAbandoned(ghost a: Attempt, key: Key, refused: bool)
      requires Sound() && a in world.workers && world.workers[a].pc.Done? && world.workers[a].wire == Some(key)
      modifies this
      ensures Sound() && row == old(row)
      ensures OnlyMoved(a, old(world.workers), world.workers)
      ensures world.workers[a] == old(world.workers)[a].(wire := None)
      ensures ledger == if refused then old(ledger) else CreateAt(old(ledger), old(remembered), key).0
    {
      assert Pending(world.workers[a]) == Some(key);
      if refused {
        Advance(Does(a, Refuse));
      } else {
        if key !in remembered {
          remembered := remembered[key := |ledger|];
          ledger := ledger + [Invoice(key, true)];
        }
        Advance(Does(a, Settle));
      }
    }

    /** The export row is lost: a restore from backup, a manual fix. */
    method LoseRecord()
      requires Sound()
      modifies this`row, this`world, this`history
      ensures Sound() && row == None && world.workers == old(world.workers)
    {
      row := None;
      Advance(LoseRow);
    }

    /** The distributor voids an invoice. */
    method VoidInvoice(invoice: nat)
      requires Sound()
      modifies this`ledger, this`world, this`history
      ensures Sound() && ledger == VoidAt(old(ledger), invoice) && world.workers == old(world.workers)
    {
      ledger := VoidAt(ledger, invoice);
      Advance(Void(invoice));
    }

    /** The provider forgets an idempotency key. */
    method ForgetKey(key: Key)
      requires Sound()
      modifies this`remembered, this`world, this`history
      ensures Sound() && remembered == old(remembered) - {key} && world.workers == old(world.workers)
    {
      remembered := remembered - {key};
      Advance(Forget(key));
    }
  }
}
