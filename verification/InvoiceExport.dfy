/**
 Invoice export for one order in one accounting organisation
 (apps/api/src/accounting-invoice-export/accounting-invoice-export.processor.ts), as a state machine.

 Every awaited call is one atomic step, so any number of attempts for the order interleave freely,
 a worker may die between any two calls, a create may reach the provider after the caller gave up
 on it, the export row may be lost, the provider may forget idempotency keys and the distributor
 may void invoices. A step that is not possible in a state leaves the state as it is, so every
 sequence of actions is a run.
 */
module InvoiceExport {
  import opened Wrappers
  import opened JobFailure

  const PROCESSING_STALE_MS := 900_000

  type Attempt = nat
  type Request = int

  datatype ExportStatus = PENDING | PROCESSING | COMPLETED | FAILED

  datatype ExportRow = ExportRow(
    id: nat, status: ExportStatus, updatedAt: int, retryCount: nat, invoice: Option<nat>)

  /** invoiceIdempotencyKey: the export row's id and the hash of the request. */
  datatype Key = Key(exportId: nat, request: Request)

  /** A sales invoice the provider holds under this order's number; its id is its place in the ledger. */
  datatype Invoice = Invoice(key: Key, live: bool)

  /** What all attempts share: our export row, and the provider's ledger and remembered keys. */
  datatype Shared = Shared(
    row: Option<ExportRow>, nextRowId: nat, ledger: seq<Invoice>, remembered: map<Key, nat>)

  // ----- What the calls do to the row -----

  /** The age below which a PROCESSING row is presumed to have a live attempt behind it. */
  predicate InFlight(row: ExportRow, now: int) {
    row.status == PROCESSING && now - row.updatedAt < PROCESSING_STALE_MS
  }

  function InsertRow(id: nat, now: int): ExportRow {
    ExportRow(id, PROCESSING, now, 1, None)
  }

  /** The claim's UPDATE by primary key. It does not look at the status it overwrites. */
  function TakeRow(row: Option<ExportRow>, id: nat, retry: bool, now: int): Option<ExportRow> {
    if row.Some? && row.value.id == id
    then Some(row.value.(status := PROCESSING, updatedAt := now,
                         retryCount := if retry then row.value.retryCount + 1 else row.value.retryCount))
    else row
  }

  function SetStatus(row: Option<ExportRow>, id: nat, status: ExportStatus, now: int): Option<ExportRow> {
    if row.Some? && row.value.id == id
    then Some(row.value.(status := status, updatedAt := now))
    else row
  }

  function CompleteRow(row: Option<ExportRow>, id: nat, invoice: nat, now: int): Option<ExportRow> {
    if row.Some? && row.value.id == id
    then Some(row.value.(status := COMPLETED, updatedAt := now, invoice := Some(invoice)))
    else row
  }

  predicate Holds(row: Option<ExportRow>, id: nat) {
    row.Some? && row.value.id == id
  }

  // ----- What the calls do at the provider -----

  /** findInvoiceByReference: the oldest live invoice, or none. */
  function FindLive(ledger: seq<Invoice>): (found: Option<nat>)
    ensures found.Some? ==> found.value < |ledger| && ledger[found.value].live
    ensures found.Some? ==> forall i :: 0 <= i < found.value ==> !ledger[i].live
    ensures found.None? ==> forall i :: 0 <= i < |ledger| ==> !ledger[i].live
  {
    if ledger == [] then None
    else
      var earlier := FindLive(ledger[..|ledger| - 1]);
      if earlier.Some? then earlier
      else if ledger[|ledger| - 1].live then Some(|ledger| - 1)
      else None
  }

  /** createInvoice once it reaches the provider: a remembered key returns its invoice, any other makes one. */
  function CreateAt(ledger: seq<Invoice>, remembered: map<Key, nat>, key: Key): (seq<Invoice>, map<Key, nat>, nat) {
    if key in remembered then (ledger, remembered, remembered[key])
    else (ledger + [Invoice(key, true)], remembered[key := |ledger|], |ledger|)
  }

  // ----- One attempt -----

  /** Where an attempt is: the awaited call it makes next. */
  datatype Pc =
    | Claiming
    | Finding
    | Taking(rowId: nat, retry: bool)
    | Running(rowId: nat)
    | Asking(rowId: nat, key: Key)
    | Creating(rowId: nat, key: Key)
    | Waiting(rowId: nat)
    | Answered(rowId: nat, reply: Option<nat>)
    | Holding(rowId: nat, invoice: nat, adopted: bool)
    | Unsaved(rowId: nat)
    | Failing(rowId: nat, deferred: bool)
    | Done

  /**
   `wire` is the create the attempt has sent and the provider has not settled; it outlives the
   attempt. `handed` and `failed` record that it was handed an invoice, and that it wrote FAILED.
   */
  datatype Worker = Worker(pc: Pc, wire: Option<Key>, handed: bool, failed: bool)

  datatype Event =
    | Insert(now: int)
    | Find(now: int)
    | Take(now: int)
    | Ineligible
    | Assemble(request: Request)
    | Lookup
    | Send
    | Settle
    | Refuse
    | Deliver
    | CallFails(err: JobError, attemptsMade: nat, attempts: nat)
    | Save(now: int)
    | SaveFails
    | Release(now: int)
    | ReleaseFails
    | RecordFailure(now: int)
    | Die

  predicate Possible(k: Worker, e: Event) {
    match e
    case Insert(_) => k.pc.Claiming?
    case Find(_) => k.pc.Finding?
    case Take(_) => k.pc.Taking?
    case Ineligible => k.pc.Running?
    case Assemble(_) => k.pc.Running?
    case Lookup => k.pc.Asking?
    case Send => k.pc.Creating?
    case Settle => k.wire.Some?
    case Refuse => k.wire.Some?
    case Deliver => k.pc.Answered?
    case CallFails(_, _, _) => k.pc.Asking? || k.pc.Creating? || k.pc.Waiting? || k.pc.Answered?
    case Save(_) => k.pc.Holding?
    case SaveFails => k.pc.Holding?
    case Release(_) => k.pc.Unsaved?
    case ReleaseFails => k.pc.Unsaved?
    case RecordFailure(_) => k.pc.Failing?
    case Die => true
  }

  function StepWorker(s: Shared, k: Worker, e: Event): (Shared, Worker)
    requires Possible(k, e)
  {
    match e
    // claimExport
    case Insert(now) =>
      if s.row.Some? then (s, k.(pc := Finding))
      else (s.(row := Some(InsertRow(s.nextRowId, now)), nextRowId := s.nextRowId + 1),
            k.(pc := Running(s.nextRowId)))
    case Find(now) =>
      if s.row.None? || s.row.value.status == COMPLETED || InFlight(s.row.value, now) then (s, k.(pc := Done))
      else (s, k.(pc := Taking(s.row.value.id, s.row.value.status != PROCESSING)))
    case Take(now) =>
      if !Holds(s.row, k.pc.rowId) then (s, k.(pc := Done))
      else (s.(row := TakeRow(s.row, k.pc.rowId, k.pc.retry, now)), k.(pc := Running(k.pc.rowId)))
    // runExport
    case Ineligible => (s, k.(pc := Failing(k.pc.rowId, false)))
    case Assemble(request) => (s, k.(pc := Asking(k.pc.rowId, Key(k.pc.rowId, request))))
    case Lookup =>
      var found := FindLive(s.ledger);
      if found.Some? then (s, k.(pc := Holding(k.pc.rowId, found.value, true), handed := true))
      else (s, k.(pc := Creating(k.pc.rowId, k.pc.key)))
    case Send => (s, k.(pc := Waiting(k.pc.rowId), wire := Some(k.pc.key)))
    case Settle =>
      var (ledger, remembered, invoice) := CreateAt(s.ledger, s.remembered, k.wire.value);
      (s.(ledger := ledger, remembered := remembered),
       k.(wire := None, pc := if k.pc.Waiting? then Answered(k.pc.rowId, Some(invoice)) else k.pc))
    case Refuse =>
      (s, k.(wire := None, pc := if k.pc.Waiting? then Answered(k.pc.rowId, None) else k.pc))
    case Deliver =>
      if k.pc.reply.Some?
      then (s, k.(pc := Holding(k.pc.rowId, k.pc.reply.value, false), handed := true))
      else (s, k.(pc := Failing(k.pc.rowId, false)))
    case CallFails(err, attemptsMade, attempts) =>
      var verdict := Classify(err, attemptsMade, attempts);
      var unsent := k.pc.Asking? || k.pc.Creating?;
      (s, k.(pc := Failing(k.pc.rowId, unsent && verdict.budgetWait && !verdict.lastAttempt)))
    // recordCompleted
    case Save(now) =>
      if !Holds(s.row, k.pc.rowId) then (s, k.(pc := Unsaved(k.pc.rowId)))
      else (s.(row := CompleteRow(s.row, k.pc.rowId, k.pc.invoice, now)), k.(pc := Done))
    case SaveFails => (s, k.(pc := Unsaved(k.pc.rowId)))
    case Release(now) => (s.(row := SetStatus(s.row, k.pc.rowId, PENDING, now)), k.(pc := Done))
    case ReleaseFails => (s, k.(pc := Done))
    // the deferral's update, or markFailed
    case RecordFailure(now) =>
      if k.pc.deferred then (s.(row := SetStatus(s.row, k.pc.rowId, PENDING, now)), k.(pc := Done))
      else (s.(row := SetStatus(s.row, k.pc.rowId, FAILED, now)), k.(pc := Done, failed := true))
    case Die => (s, k.(pc := Done))
  }

  /** The export row an attempt past its claim works for. */
  function RowOf(pc: Pc): Option<nat> {
    match pc
    case Claiming => None
    case Finding => None
    case Done => None
    case _ => Some(pc.rowId)
  }

  /**
   An attempt whose row was lost and inserted anew by somebody else leaves the new row alone: no later
   step of it fails, completes or releases it.
   */
  lemma OnlyItsOwnRow(s: Shared, k: Worker, e: Event)
    requires Possible(k, e) && s.row.Some? && RowOf(k.pc).Some? && RowOf(k.pc) != Some(s.row.value.id)
    ensures StepWorker(s, k, e).0.row == s.row
    ensures var after := RowOf(StepWorker(s, k, e).1.pc); after.None? || after == RowOf(k.pc)
  {
  }

  /** An attempt can die anywhere; the row stays as it left it, and a create it sent stays on its way. */
  lemma DyingChangesNothing(s: Shared, k: Worker)
    ensures Possible(k, Die) && StepWorker(s, k, Die) == (s, k.(pc := Done))
  {
  }

  // ----- Any number of attempts -----

  datatype World = World(shared: Shared, workers: map<Attempt, Worker>)

  const Fresh := World(Shared(None, 0, [], map[]), map[])

  datatype Action =
    | Start(a: Attempt, invoiceable: bool)
    | Does(a: Attempt, event: Event)
    | LoseRow
    | Void(invoice: nat)
    | Forget(key: Key)

  function Step(w: World, act: Action): World {
    match act
    case Start(a, invoiceable) =>
      if a in w.workers then w
      else
        var completed := w.shared.row.Some? && w.shared.row.value.status == COMPLETED;
        var pc := if invoiceable && !completed then Claiming else Done;
        w.(workers := w.workers[a := Worker(pc, None, false, false)])
    case Does(a, e) =>
      if a !in w.workers || !Possible(w.workers[a], e) then w
      else
        var (shared, worker) := StepWorker(w.shared, w.workers[a], e);
        World(shared, w.workers[a := worker])
    case LoseRow => w.(shared := w.shared.(row := None))
    case Void(i) => w.(shared := w.shared.(ledger := VoidAt(w.shared.ledger, i)))
    case Forget(key) => w.(shared := w.shared.(remembered := w.shared.remembered - {key}))
  }

  function VoidAt(ledger: seq<Invoice>, i: nat): seq<Invoice> {
    if i < |ledger| then ledger[i := ledger[i].(live := false)] else ledger
  }

  function Run(w: World, acts: seq<Action>): World
    decreases |acts|
  {
    if acts == [] then w else Run(Step(w, acts[0]), acts[1..])
  }

  // ----- What holds in every run -----

  ghost predicate ValidShared(s: Shared) {
    && (forall key :: key in s.remembered ==>
          s.remembered[key] < |s.ledger| && s.ledger[s.remembered[key]].key == key)
    && (s.row.Some? ==>
          && s.row.value.id < s.nextRowId
          && (s.row.value.invoice.Some? ==> s.row.value.invoice.value < |s.ledger|)
          && (s.row.value.status == COMPLETED ==> s.row.value.invoice.Some?))
  }

  ghost predicate ValidWorker(s: Shared, k: Worker) {
    && (k.failed ==> k.pc.Done? && !k.handed)
    && match k.pc
       case Done => true
       case Holding(_, invoice, _) => k.handed && k.wire.None? && invoice < |s.ledger|
       case Unsaved(_) => k.handed && k.wire.None?
       case Failing(_, _) => !k.handed
       case Waiting(_) => !k.handed && k.wire.Some?
       case Answered(_, reply) => !k.handed && k.wire.None? && (reply.Some? ==> reply.value < |s.ledger|)
       case _ => !k.handed && k.wire.None?
  }

  ghost predicate Valid(w: World) {
    ValidShared(w.shared) && forall a :: a in w.workers ==> ValidWorker(w.shared, w.workers[a])
  }

  /** The ledger only grows, and an invoice keeps the key it was made under. */
  ghost predicate Extends(ledger: seq<Invoice>, more: seq<Invoice>) {
    |ledger| <= |more| && forall i :: 0 <= i < |ledger| ==> more[i].key == ledger[i].key
  }

  lemma WorkerStepKeepsValid(s: Shared, k: Worker, e: Event)
    requires ValidShared(s) && ValidWorker(s, k) && Possible(k, e)
    ensures var (s', k') := StepWorker(s, k, e);
            ValidShared(s') && ValidWorker(s', k') && Extends(s.ledger, s'.ledger)
  {
  }

  lemma StepKeepsValid(w: World, act: Action)
    requires Valid(w)
    ensures Valid(Step(w, act)) && Extends(w.shared.ledger, Step(w, act).shared.ledger)
  {
    if act.Does? && act.a in w.workers && Possible(w.workers[act.a], act.event) {
      WorkerStepKeepsValid(w.shared, w.workers[act.a], act.event);
    }
  }

  lemma {:induction false} RunKeepsValid(w: World, acts: seq<Action>)
    requires Valid(w)
    ensures Valid(Run(w, acts)) && Extends(w.shared.ledger, Run(w, acts).shared.ledger)
    decreases |acts|
  {
    if acts != [] {
      StepKeepsValid(w, acts[0]);
      RunKeepsValid(Step(w, acts[0]), acts[1..]);
    }
  }

  /** In every run a COMPLETED export names an invoice the provider holds under the order's number. */
  lemma CompletedNamesInvoice(acts: seq<Action>)
    ensures var s := Run(Fresh, acts).shared;
            s.row.Some? && s.row.value.status == COMPLETED ==>
              s.row.value.invoice.Some? && s.row.value.invoice.value < |s.ledger|
  {
    RunKeepsValid(Fresh, acts);
  }

  /** In every run an attempt that was handed an invoice is never one that wrote FAILED. */
  lemma HandedNeverFails(acts: seq<Action>, a: Attempt)
    requires a in Run(Fresh, acts).workers && Run(Fresh, acts).workers[a].handed
    ensures !Run(Fresh, acts).workers[a].failed
  {
    RunKeepsValid(Fresh, acts);
  }

  // ----- Never invoiced twice -----

  /** The key of the create a worker has decided on and the provider has not settled yet. */
  function Pending(k: Worker): Option<Key> {
    if k.wire.Some? then k.wire
    else if k.pc.Creating? then Some(k.pc.key)
    else None
  }

  ghost predicate PendingUnder(w: World, key: Key) {
    exists b :: b in w.workers && Pending(w.workers[b]) == Some(key)
  }

  predicate HasLive(ledger: seq<Invoice>) {
    FindLive(ledger).Some?
  }

  /**
   The two events the protocol relies on not happening: a lookup that answers "none" while a create
   under another key is pending, and the provider forgetting the key of a pending create once the
   invoice exists. Nothing else that an attempt, a crash or the environment does matters.
   */
  ghost predicate Guarded(w: World, act: Action) {
    && (act.Does? && act.event.Lookup? && act.a in w.workers && w.workers[act.a].pc.Asking?
        && !HasLive(w.shared.ledger) ==>
          forall key :: PendingUnder(w, key) ==> key == w.workers[act.a].pc.key)
    && (act.Forget? && HasLive(w.shared.ledger) ==> !PendingUnder(w, act.key))
  }

  ghost predicate GuardedRun(w: World, acts: seq<Action>)
    decreases |acts|
  {
    acts == [] || (Guarded(w, acts[0]) && GuardedRun(Step(w, acts[0]), acts[1..]))
  }

  function LiveInvoices(ledger: seq<Invoice>): set<nat> {
    set i | 0 <= i < |ledger| && ledger[i].live
  }

  ghost predicate AtMostOneLive(ledger: seq<Invoice>) {
    forall i, j :: 0 <= i < |ledger| && 0 <= j < |ledger| && ledger[i].live && ledger[j].live ==> i == j
  }

  /** Pending creates agree on one key, and once the invoice exists the provider remembers that key. */
  ghost predicate OneInvoice(w: World) {
    && AtMostOneLive(w.shared.ledger)
    && (forall key, key' :: PendingUnder(w, key) && PendingUnder(w, key') ==> key == key')
    && (HasLive(w.shared.ledger) ==> forall key :: PendingUnder(w, key) ==> key in w.shared.remembered)
  }

  /** The lookup answers "none": from here to the settling of its create the attempt is pending. */
  predicate FindsNone(w: World, act: Action) {
    && act.Does? && act.event.Lookup? && act.a in w.workers && w.workers[act.a].pc.Asking?
    && !HasLive(w.shared.ledger)
  }

  lemma WorkerPendingBefore(s: Shared, k: Worker, e: Event)
    requires ValidWorker(s, k) && Possible(k, e)
    ensures var k' := StepWorker(s, k, e).1;
            Pending(k').Some? ==>
              if e.Lookup? then !HasLive(s.ledger) && Pending(k') == Some(k.pc.key)
              else Pending(k') == Pending(k) && !e.Settle?
  {
  }

  /** A create becomes pending only through a lookup that answers "none". */
  lemma PendingWorkerBefore(w: World, act: Action, b: Attempt)
    requires Valid(w) && b in Step(w, act).workers && Pending(Step(w, act).workers[b]).Some?
    ensures (FindsNone(w, act) && act.a == b && Pending(Step(w, act).workers[b]) == Some(w.workers[b].pc.key))
         || (b in w.workers && Pending(w.workers[b]) == Pending(Step(w, act).workers[b])
             && (act == Does(b, Settle) ==> w.workers[b].wire.None?))
  {
    if act.Does? && act.a == b && b in w.workers && Possible(w.workers[b], act.event) {
      WorkerPendingBefore(w.shared, w.workers[b], act.event);
    }
  }

  lemma PendingBefore(w: World, act: Action, key: Key)
    requires Valid(w) && PendingUnder(Step(w, act), key)
    ensures PendingUnder(w, key) || (FindsNone(w, act) && w.workers[act.a].pc.key == key)
  {
    var b :| b in Step(w, act).workers && Pending(Step(w, act).workers[b]) == Some(key);
    PendingWorkerBefore(w, act, b);
  }

  /** A step makes a live invoice only by settling a create whose key the provider does not remember. */
  lemma LiveAfter(w: World, act: Action)
    requires Valid(w)
    ensures var w' := Step(w, act);
            var settles := act.Does? && act.event.Settle? && act.a in w.workers && w.workers[act.a].wire.Some?
                           && w.workers[act.a].wire.value !in w.shared.remembered;
            && (!settles ==>
                  forall i :: 0 <= i < |w'.shared.ledger| && w'.shared.ledger[i].live ==>
                    i < |w.shared.ledger| && w.shared.ledger[i].live)
            && (settles ==>
                  && w'.shared.ledger == w.shared.ledger + [Invoice(w.workers[act.a].wire.value, true)]
                  && PendingUnder(w, w.workers[act.a].wire.value))
  {
    if act.Does? && act.event.Settle? && act.a in w.workers && w.workers[act.a].wire.Some? {
      assert Pending(w.workers[act.a]) == w.workers[act.a].wire;
    }
  }

  lemma RememberedAfter(w: World, act: Action, key: Key)
    requires key in w.shared.remembered && act != Forget(key)
    ensures key in Step(w, act).shared.remembered
  {
  }

  lemma GuardedStepKeepsOneInvoice(w: World, act: Action)
    requires Valid(w) && OneInvoice(w) && Guarded(w, act)
    ensures OneInvoice(Step(w, act))
  {
    var w' := Step(w, act);
    LiveAfter(w, act);
    forall key, key' | PendingUnder(w', key) && PendingUnder(w', key')
      ensures key == key'
    {
      PendingBefore(w, act, key);
      PendingBefore(w, act, key');
    }
    if HasLive(w'.shared.ledger) {
      forall key | PendingUnder(w', key)
        ensures key in w'.shared.remembered
      {
        PendingBefore(w, act, key);
        if key in w.shared.remembered && act != Forget(key) {
          RememberedAfter(w, act, key);
        }
      }
    }
  }

  lemma {:induction false} GuardedRunKeepsOneInvoice(w: World, acts: seq<Action>)
    requires Valid(w) && OneInvoice(w) && GuardedRun(w, acts)
    ensures OneInvoice(Run(w, acts))
    decreases |acts|
  {
    if acts != [] {
      StepKeepsValid(w, acts[0]);
      GuardedStepKeepsOneInvoice(w, acts[0]);
      GuardedRunKeepsOneInvoice(Step(w, acts[0]), acts[1..]);
    }
  }

  lemma LiveCount(ledger: seq<Invoice>)
    ensures AtMostOneLive(ledger) <==> |LiveInvoices(ledger)| <= 1
  {
    var live := LiveInvoices(ledger);
    if AtMostOneLive(ledger) {
      if live != {} {
        var i :| i in live;
        assert live == {i};
      }
    } else {
      var i, j :| 0 <= i < |ledger| && 0 <= j < |ledger| && ledger[i].live && ledger[j].live && i != j;
      assert {i, j} <= live;
      assert |live - {i, j}| == |live| - 2;
    }
  }

  /** In every guarded run the provider never holds two live invoices for the order. */
  lemma NeverInvoicedTwice(acts: seq<Action>)
    requires GuardedRun(Fresh, acts)
    ensures |LiveInvoices(Run(Fresh, acts).shared.ledger)| <= 1
  {
    GuardedRunKeepsOneInvoice(Fresh, acts);
    LiveCount(Run(Fresh, acts).shared.ledger);
  }

  // ----- Attempts that do not overlap -----

  ghost predicate NonePending(workers: map<Attempt, Worker>) {
    forall b :: b in workers ==> Pending(workers[b]).None?
  }

  /** No lookup answers "none" while another attempt's create is pending. */
  ghost predicate LoneLookups(w: World, acts: seq<Action>)
    decreases |acts|
  {
    acts == [] ||
      ((FindsNone(w, acts[0]) ==> NonePending(w.workers))
       && LoneLookups(Step(w, acts[0]), acts[1..]))
  }

  /** At most one create is pending, and none is once the invoice exists. */
  ghost predicate OnePending(ledger: seq<Invoice>, workers: map<Attempt, Worker>) {
    && (forall a, b | a in workers && b in workers ::
          Pending(workers[a]).Some? && Pending(workers[b]).Some? ==> a == b)
    && (HasLive(ledger) ==> NonePending(workers))
  }

  lemma LoneStepKeepsOnePending(w: World, act: Action)
    requires Valid(w) && OnePending(w.shared.ledger, w.workers)
    requires FindsNone(w, act) ==> NonePending(w.workers)
    ensures OnePending(Step(w, act).shared.ledger, Step(w, act).workers)
  {
    var w' := Step(w, act);
    LiveAfter(w, act);
    forall b | b in w'.workers && Pending(w'.workers[b]).Some?
      ensures (FindsNone(w, act) && act.a == b)
           || (b in w.workers && Pending(w.workers[b]) == Pending(w'.workers[b])
               && (act == Does(b, Settle) ==> w.workers[b].wire.None?))
    {
      PendingWorkerBefore(w, act, b);
    }
  }

  lemma LoneStepIsGuarded(w: World, act: Action)
    requires OnePending(w.shared.ledger, w.workers)
    requires FindsNone(w, act) ==> NonePending(w.workers)
    ensures Guarded(w, act)
  {
  }

  lemma {:induction false} LoneRunIsGuarded(w: World, acts: seq<Action>)
    requires Valid(w) && OnePending(w.shared.ledger, w.workers) && LoneLookups(w, acts)
    ensures GuardedRun(w, acts)
    decreases |acts|
  {
    if acts != [] {
      StepKeepsValid(w, acts[0]);
      LoneStepIsGuarded(w, acts[0]);
      LoneStepKeepsOnePending(w, acts[0]);
      LoneRunIsGuarded(Step(w, acts[0]), acts[1..]);
    }
  }

  /**
   Attempts that do not overlap raise at most one live invoice, whatever the provider remembers:
   the idempotency key is not what the guarantee rests on.
   */
  lemma LoneAttemptsNeverInvoiceTwice(acts: seq<Action>)
    requires LoneLookups(Fresh, acts)
    ensures |LiveInvoices(Run(Fresh, acts).shared.ledger)| <= 1
  {
    LoneRunIsGuarded(Fresh, acts);
    NeverInvoicedTwice(acts);
  }

  // ----- Once the invoice exists -----

  predicate NoVoids(acts: seq<Action>) {
    forall act :: act in acts ==> !act.Void?
  }

  /** An attempt with no create of its own, holding at most the one invoice there is, found by lookup. */
  predicate Adopting(k: Worker, invoice: nat) {
    && k.wire.None? && !k.pc.Creating? && !k.pc.Waiting? && !k.pc.Answered?
    && (k.pc.Holding? ==> k.pc.invoice == invoice && k.pc.adopted)
  }

  ghost predicate Settled(w: World, ledger: seq<Invoice>, before: set<Attempt>) {
    && w.shared.ledger == ledger && NonePending(w.workers)
    && FindLive(ledger).Some?
    && forall a :: a in w.workers && a !in before ==> Adopting(w.workers[a], FindLive(ledger).value)
  }

  lemma StepStaysSettled(w: World, act: Action, ledger: seq<Invoice>, before: set<Attempt>)
    requires Valid(w) && Settled(w, ledger, before) && !act.Void?
    ensures Settled(Step(w, act), ledger, before)
  {
    if act.Does? && act.a in w.workers {
      assert ValidWorker(w.shared, w.workers[act.a]) && Pending(w.workers[act.a]).None?;
    }
  }

  lemma {:induction false} RunStaysSettled(w: World, acts: seq<Action>, ledger: seq<Invoice>, before: set<Attempt>)
    requires Valid(w) && Settled(w, ledger, before) && NoVoids(acts)
    ensures Settled(Run(w, acts), ledger, before)
    decreases |acts|
  {
    if acts != [] {
      assert acts[0] in acts;
      assert forall act :: act in acts[1..] ==> act in acts;
      StepKeepsValid(w, acts[0]);
      StepStaysSettled(w, acts[0], ledger, before);
      RunStaysSettled(Step(w, acts[0]), acts[1..], ledger, before);
    }
  }

  /**
   Once the invoice exists and no create is pending, nothing but its being voided changes the provider's
   ledger again, whatever overlaps, dies or is lost; and an attempt begun after that, if it is handed an
   invoice, is handed that one, and completes the row with it.
   */
  lemma AdoptedOnceItExists(before: seq<Action>, acts: seq<Action>, a: Attempt, now: int)
    requires var w := Run(Fresh, before);
             HasLive(w.shared.ledger) && NonePending(w.workers) && a !in w.workers && NoVoids(acts)
    ensures var w, w' := Run(Fresh, before), Run(Run(Fresh, before), acts);
            var invoice := FindLive(w.shared.ledger).value;
            && w'.shared.ledger == w.shared.ledger
            && (a in w'.workers && w'.workers[a].pc.Holding? ==>
                  && w'.workers[a].pc.invoice == invoice
                  && (Holds(w'.shared.row, w'.workers[a].pc.rowId) ==>
                        var row := Step(w', Does(a, Save(now))).shared.row;
                        row.Some? && row.value.status == COMPLETED && row.value.invoice == Some(invoice)))
  {
    var w := Run(Fresh, before);
    RunKeepsValid(Fresh, before);
    RunStaysSettled(w, acts, w.shared.ledger, w.workers.Keys);
  }

  /** No step of an attempt that was handed an invoice makes the row FAILED, in any run. */
  lemma HandedNeverWritesFailed(acts: seq<Action>, a: Attempt, e: Event)
    requires var w := Run(Fresh, acts); a in w.workers && w.workers[a].handed
    ensures var w, w' := Run(Fresh, acts), Step(Run(Fresh, acts), Does(a, e));
            w'.shared.row == w.shared.row || (w'.shared.row.Some? && w'.shared.row.value.status != FAILED)
  {
    RunKeepsValid(Fresh, acts);
    assert ValidWorker(Run(Fresh, acts).shared, Run(Fresh, acts).workers[a]);
  }

  // ----- The guard is exact -----

  lemma {:induction false} RunAppend(w: World, first: seq<Action>, second: seq<Action>)
    ensures Run(w, first + second) == Run(Run(w, first), second)
    decreases |first|
  {
    if first == [] {
      assert first + second == second;
    } else {
      assert (first + second)[1..] == first[1..] + second;
      RunAppend(Step(w, first[0]), first[1..], second);
    }
  }

  lemma {:induction false} GuardedAppend(w: World, first: seq<Action>, second: seq<Action>)
    requires GuardedRun(w, first) && GuardedRun(Run(w, first), second)
    ensures GuardedRun(w, first + second)
    decreases |first|
  {
    if first == [] {
      assert first + second == second;
    } else {
      assert (first + second)[1..] == first[1..] + second;
      GuardedAppend(Step(w, first[0]), first[1..], second);
    }
  }

  /** No attempt begins among them, and none looks the invoice up. */
  predicate NoneLooks(acts: seq<Action>) {
    forall act :: act in acts ==> !act.Start? && !(act.Does? && act.event.Lookup?)
  }

  lemma OneAction(w: World, act: Action)
    ensures Run(w, [act]) == Step(w, act) && (GuardedRun(w, [act]) <==> Guarded(w, act))
  {
    assert Run(Step(w, act), []) == Step(w, act) && GuardedRun(Step(w, act), []);
  }

  lemma TwoActions(w: World, x: Action, y: Action)
    ensures Run(w, [x, y]) == Step(Step(w, x), y)
    ensures GuardedRun(w, [x, y]) <==> Guarded(w, x) && Guarded(Step(w, x), y)
  {
    assert [x, y][1..] == [y];
    OneAction(Step(w, x), y);
  }

  /** A pending create whose key the provider does not remember ends as a further live invoice. */
  lemma PendingCanSettle(w: World, b: Attempt) returns (acts: seq<Action>)
    requires Valid(w) && b in w.workers && Pending(w.workers[b]).Some?
    requires Pending(w.workers[b]).value !in w.shared.remembered
    ensures var key, w' := Pending(w.workers[b]).value, Run(w, acts);
            && w'.shared.ledger == w.shared.ledger + [Invoice(key, true)]
            && w'.shared.remembered == w.shared.remembered[key := |w.shared.ledger|]
            && forall a :: a in w.workers && a != b ==> a in w'.workers && w'.workers[a] == w.workers[a]
    ensures Valid(Run(w, acts)) && NoneLooks(acts) && GuardedRun(w, acts)
  {
    assert ValidWorker(w.shared, w.workers[b]);
    if w.workers[b].wire.Some? {
      acts := [Does(b, Settle)];
      OneAction(w, Does(b, Settle));
    } else {
      acts := [Does(b, Send), Does(b, Settle)];
      TwoActions(w, Does(b, Send), Does(b, Settle));
    }
    RunKeepsValid(w, acts);
  }

  /** While no invoice is live the provider may forget any key. */
  lemma KeyCanBeForgotten(w: World, key: Key)
    requires Valid(w) && !HasLive(w.shared.ledger)
    ensures Guarded(w, Forget(key)) && Valid(Step(w, Forget(key))) && Step(w, Forget(key)).workers == w.workers
    ensures Step(w, Forget(key)).shared == w.shared.(remembered := w.shared.remembered - {key})
  {
    StepKeepsValid(w, Forget(key));
  }

  /** With no invoice live, a pending create can end as one. */
  lemma PendingCanHold(w: World, b: Attempt) returns (acts: seq<Action>)
    requires Valid(w) && !HasLive(w.shared.ledger) && b in w.workers && Pending(w.workers[b]).Some?
    ensures HasLive(Run(w, acts).shared.ledger) && NoneLooks(acts) && GuardedRun(w, acts)
  {
    var key := Pending(w.workers[b]).value;
    KeyCanBeForgotten(w, key);
    OneAction(w, Forget(key));
    var rest := PendingCanSettle(Step(w, Forget(key)), b);
    acts := [Forget(key)] + rest;
    GuardedAppend(w, [Forget(key)], rest);
    RunAppend(w, [Forget(key)], rest);
    assert Run(w, acts).shared.ledger[|w.shared.ledger|].live;
  }

  /** With no invoice live, two creates pending under different keys can end as two. */
  lemma TwoPendingCanDuplicate(w: World, a: Attempt, b: Attempt) returns (acts: seq<Action>)
    requires Valid(w) && !HasLive(w.shared.ledger) && a in w.workers && b in w.workers
    requires Pending(w.workers[a]).Some? && Pending(w.workers[b]).Some?
    requires Pending(w.workers[a]) != Pending(w.workers[b])
    ensures !AtMostOneLive(Run(w, acts).shared.ledger) && NoneLooks(acts) && GuardedRun(w, acts)
  {
    var x, y := Forget(Pending(w.workers[a]).value), Forget(Pending(w.workers[b]).value);
    KeyCanBeForgotten(w, x.key);
    KeyCanBeForgotten(Step(w, x), y.key);
    TwoActions(w, x, y);
    var forgotten := Run(w, [x, y]);
    var first := PendingCanSettle(forgotten, a);
    var second := PendingCanSettle(Run(forgotten, first), b);
    GuardedAppend(forgotten, first, second);
    RunAppend(forgotten, first, second);
    GuardedAppend(w, [x, y], first + second);
    RunAppend(w, [x, y], first + second);
    acts := [x, y] + (first + second);
    var n := |w.shared.ledger|;
    assert Run(w, acts).shared.ledger[n].live && Run(w, acts).shared.ledger[n + 1].live;
  }

  lemma VoidingLeavesNone(w: World, i: nat)
    requires Valid(w) && AtMostOneLive(w.shared.ledger) && FindLive(w.shared.ledger) == Some(i)
    ensures var w' := Step(w, Void(i));
      Valid(w') && !HasLive(w'.shared.ledger) && w'.workers == w.workers && Guarded(w, Void(i))
  {
    StepKeepsValid(w, Void(i));
  }

  /** Broken, the state can be brought to two live invoices by what is pending in it. */
  lemma BrokenStateCanDuplicate(w: World) returns (acts: seq<Action>)
    requires Valid(w) && !OneInvoice(w)
    ensures !AtMostOneLive(Run(w, acts).shared.ledger) && NoneLooks(acts) && GuardedRun(w, acts)
  {
    if !AtMostOneLive(w.shared.ledger) {
      acts := [];
    } else if key :| HasLive(w.shared.ledger) && PendingUnder(w, key) && key !in w.shared.remembered {
      var b :| b in w.workers && Pending(w.workers[b]) == Some(key);
      acts := PendingCanSettle(w, b);
      var i := FindLive(w.shared.ledger).value;
      assert Run(w, acts).shared.ledger[i].live && Run(w, acts).shared.ledger[|w.shared.ledger|].live;
    } else {
      var key, key' :| PendingUnder(w, key) && PendingUnder(w, key') && key != key';
      var a :| a in w.workers && Pending(w.workers[a]) == Some(key);
      var b :| b in w.workers && Pending(w.workers[b]) == Some(key');
      if HasLive(w.shared.ledger) {
        var void := Void(FindLive(w.shared.ledger).value);
        VoidingLeavesNone(w, void.invoice);
        OneAction(w, void);
        var rest := TwoPendingCanDuplicate(Step(w, void), a, b);
        acts := [void] + rest;
        GuardedAppend(w, [void], rest);
        RunAppend(w, [void], rest);
      } else {
        acts := TwoPendingCanDuplicate(w, a, b);
      }
    }
  }

  /** Through every guarded continuation the provider holds at most one live invoice. */
  ghost predicate StaysSingle(w: World) {
    forall acts :: GuardedRun(w, acts) ==> |LiveInvoices(Run(w, acts).shared.ledger)| <= 1
  }

  /** The invariant is the weakest there is: without it some guarded continuation ends in two invoices. */
  lemma StaysSingleExactlyWhen(w: World)
    requires Valid(w)
    ensures StaysSingle(w) <==> OneInvoice(w)
  {
    if OneInvoice(w) {
      forall acts | GuardedRun(w, acts)
        ensures |LiveInvoices(Run(w, acts).shared.ledger)| <= 1
      {
        GuardedRunKeepsOneInvoice(w, acts);
        LiveCount(Run(w, acts).shared.ledger);
      }
    } else {
      var acts := BrokenStateCanDuplicate(w);
      LiveCount(Run(w, acts).shared.ledger);
    }
  }

  lemma UnguardedStepBreaks(w: World, act: Action)
    requires Valid(w) && OneInvoice(w) && !Guarded(w, act)
    ensures !OneInvoice(Step(w, act))
  {
    var w' := Step(w, act);
    if act.Forget? {
      var b :| b in w.workers && Pending(w.workers[b]) == Some(act.key);
      assert b in w'.workers && Pending(w'.workers[b]) == Some(act.key);
      assert PendingUnder(w', act.key) && act.key !in w'.shared.remembered;
    } else {
      var key :| PendingUnder(w, key) && key != w.workers[act.a].pc.key;
      var b :| b in w.workers && Pending(w.workers[b]) == Some(key);
      assert ValidWorker(w.shared, w.workers[act.a]);
      assert b in w'.workers && Pending(w'.workers[b]) == Some(key);
      assert Pending(w'.workers[act.a]) == Some(w.workers[act.a].pc.key);
      assert PendingUnder(w', key) && PendingUnder(w', w.workers[act.a].pc.key);
    }
  }

  /**
   After an unguarded step the creates already pending can leave the provider holding two live invoices,
   though every later step is guarded, none looks the invoice up and no attempt begins.
   */
  lemma UnguardedStepCanDuplicate(w: World, act: Action) returns (acts: seq<Action>)
    requires Valid(w) && OneInvoice(w) && !Guarded(w, act)
    ensures |LiveInvoices(Run(Step(w, act), acts).shared.ledger)| >= 2
    ensures NoneLooks(acts) && GuardedRun(Step(w, act), acts)
  {
    StepKeepsValid(w, act);
    UnguardedStepBreaks(w, act);
    acts := BrokenStateCanDuplicate(Step(w, act));
    LiveCount(Run(Step(w, act), acts).shared.ledger);
  }

  /** The guard is exact: a step keeps the promise through every guarded continuation if and only if it is guarded. */
  lemma GuardedExactlyWhen(w: World, act: Action)
    requires Valid(w) && OneInvoice(w)
    ensures StaysSingle(Step(w, act)) <==> Guarded(w, act)
  {
    StepKeepsValid(w, act);
    StaysSingleExactlyWhen(Step(w, act));
    if Guarded(w, act) { GuardedStepKeepsOneInvoice(w, act); } else { UnguardedStepBreaks(w, act); }
  }
}
