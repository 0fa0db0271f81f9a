/**
 What the export protocol does not guarantee by itself
 (apps/api/src/accounting-invoice-export/accounting-invoice-export.processor.ts): claims that race,
 and an order exported to a second accounting organisation.
 */
module InvoiceExportLimits {
  import opened Wrappers
  import opened JobFailure
  import opened InvoiceExport

  /** A run is its list of states. */
  lemma {:induction false} RunTrace(acts: seq<Action>, states: seq<World>)
    requires |states| == |acts| + 1
    requires forall i :: 0 <= i < |acts| ==> states[i + 1] == Step(states[i], acts[i])
    ensures Run(states[0], acts) == states[|acts|]
    decreases |acts|
  {
    if acts != [] {
      var rest := states[1..];
      assert forall i :: 0 <= i < |acts| - 1 ==> rest[i + 1] == Step(rest[i], acts[1..][i]);
      RunTrace(acts[1..], rest);
    }
  }

  /** Attempt 0 leaves the row FAILED, say because the customer was not mapped yet. */
  const FirstFails: seq<Action> :=
    [Start(0, true), Does(0, Insert(0)), Does(0, Ineligible), Does(0, RecordFailure(1))]

  /** Attempts 1 and 2 both read FAILED before either of them updates the row. */
  const BothStart: seq<Action> := [Start(1, true), Start(2, true), Does(1, Insert(10)), Does(2, Insert(10))]
  const BothRead: seq<Action> := [Does(1, Find(11)), Does(2, Find(11))]

  /** Both update the row. A mapping fixed in between gives them different requests, so different keys. */
  const BothClaim: seq<Action> := [Does(1, Take(12)), Does(2, Take(12))]
  const BothAssemble: seq<Action> := [Does(1, Assemble(1)), Does(2, Assemble(2))]
  const BothLookup: seq<Action> := [Does(1, Lookup), Does(2, Lookup)]
  const BothSend: seq<Action> := [Does(1, Send), Does(2, Send)]
  const BothSettle: seq<Action> := [Does(1, Settle), Does(2, Settle)]

  function Claims(): seq<Action> { BothRead + BothClaim }
  function Lookups(): seq<Action> { BothAssemble + BothLookup }
  function Creates(): seq<Action> { BothSend + BothSettle }

  function At(pc: Pc): Worker {
    Worker(pc, None, false, false)
  }

  lemma AfterFirstFails()
    ensures Run(Fresh, FirstFails)
         == World(Shared(Some(ExportRow(0, FAILED, 1, 1, None)), 1, [], map[]),
                  map[0 := Worker(Done, None, false, true)])
  {
    var w1 := Step(Fresh, FirstFails[0]);
    var w2 := Step(w1, FirstFails[1]);
    var w3 := Step(w2, FirstFails[2]);
    var w4 := Step(w3, FirstFails[3]);
    RunTrace(FirstFails, [Fresh, w1, w2, w3, w4]);
  }

  lemma TwoSteps(w: World, acts: seq<Action>)
    requires |acts| == 2
    ensures Run(w, acts) == Step(Step(w, acts[0]), acts[1])
  {
    RunTrace(acts, [w, Step(w, acts[0]), Step(Step(w, acts[0]), acts[1])]);
  }

  lemma AfterBothStart(w: World, row: ExportRow)
    requires w.shared.row == Some(row) && row.status == FAILED && 1 !in w.workers && 2 !in w.workers
    ensures Run(w, BothStart) == w.(workers := w.workers[1 := At(Finding)][2 := At(Finding)])
  {
    var w1 := Step(w, BothStart[0]);
    var w2 := Step(w1, BothStart[1]);
    var w3 := Step(w2, BothStart[2]);
    var w4 := Step(w3, BothStart[3]);
    RunTrace(BothStart, [w, w1, w2, w3, w4]);
  }

  /** Attempts 1 and 2 stand at the given calls. */
  predicate Stand(w: World, first: Pc, second: Pc) {
    1 in w.workers && 2 in w.workers && w.workers[1] == At(first) && w.workers[2] == At(second)
  }

  lemma AfterBothLookup(w: World, id: nat)
    requires w.shared.ledger == [] && Stand(w, Running(id), Running(id))
    ensures var w' := Run(w, Lookups());
            w'.shared == w.shared && Stand(w', Creating(id, Key(id, 1)), Creating(id, Key(id, 2)))
  {
    RunAppend(w, BothAssemble, BothLookup);
    TwoSteps(w, BothAssemble);
    TwoSteps(Run(w, BothAssemble), BothLookup);
  }

  lemma AfterBothSettle(w: World, id: nat)
    requires w.shared.ledger == [] && w.shared.remembered == map[]
    requires Stand(w, Creating(id, Key(id, 1)), Creating(id, Key(id, 2)))
    ensures Run(w, Creates()).shared.ledger == [Invoice(Key(id, 1), true), Invoice(Key(id, 2), true)]
  {
    RunAppend(w, BothSend, BothSettle);
    TwoSteps(w, BothSend);
    TwoSteps(Run(w, BothSend), BothSettle);
  }

  lemma AfterRace(w: World, row: ExportRow)
    requires w.shared == Shared(Some(row), 1, [], map[]) && row.status == FAILED && Stand(w, Finding, Finding)
    ensures Run(w, Claims() + (Lookups() + Creates())).shared.ledger
         == [Invoice(Key(row.id, 1), true), Invoice(Key(row.id, 2), true)]
  {
    RunAppend(w, Claims(), Lookups() + Creates());
    var claimed := Run(w, Claims());
    RunAppend(claimed, Lookups(), Creates());
    AfterBothLookup(claimed, row.id);
    AfterBothSettle(Run(claimed, Lookups()), row.id);
  }

  function RacingClaims(): seq<Action> {
    FirstFails + (BothStart + (Claims() + (Lookups() + Creates())))
  }

  /** The claim, a read followed by a blind update, does not keep attempts apart: two invoices. */
  lemma RacingClaimsDuplicate()
    ensures |LiveInvoices(Run(Fresh, RacingClaims()).shared.ledger)| == 2
  {
    var race := Claims() + (Lookups() + Creates());
    RunAppend(Fresh, FirstFails, BothStart + race);
    AfterFirstFails();
    var failed := Run(Fresh, FirstFails);
    var row := failed.shared.row.value;
    RunAppend(failed, BothStart, race);
    AfterBothStart(failed, row);
    AfterRace(Run(failed, BothStart), row);
    assert LiveInvoices([Invoice(Key(0, 1), true), Invoice(Key(0, 2), true)]) == {0, 1};
  }

  // ----- An order and several organisations -----

  type Organisation = nat

  /** One protocol world per accounting organisation the distributor has been connected to. */
  type Books = map<Organisation, World>

  function In(books: Books, o: Organisation): World {
    if o in books then books[o] else Fresh
  }

  predicate CompletedElsewhere(books: Books, o: Organisation) {
    exists p :: p in books && p != o && books[p].shared.row.Some? && books[p].shared.row.value.status == COMPLETED
  }

  /** process() also stops when another organisation's export COMPLETED. */
  function Allowed(books: Books, o: Organisation, act: Action): Action {
    match act
    case Start(a, invoiceable) => Start(a, invoiceable && !CompletedElsewhere(books, o))
    case _ => act
  }

  /** A step in one organisation. */
  function StepIn(books: Books, o: Organisation, act: Action): Books {
    books[o := Step(In(books, o), Allowed(books, o, act))]
  }

  function RunIn(books: Books, acts: seq<(Organisation, Action)>): Books
    decreases |acts|
  {
    if acts == [] then books else RunIn(StepIn(books, acts[0].0, acts[0].1), acts[1..])
  }

  /** The organisation holds a live invoice for the order, or a create is pending there. */
  ghost predicate Engaged(w: World) {
    HasLive(w.shared.ledger) || !NonePending(w.workers)
  }

  ghost predicate Consistent(books: Books) {
    && (forall o :: o in books ==> Valid(books[o]) && OneInvoice(books[o]))
    && (forall o, p :: o in books && p in books && Engaged(books[o]) && Engaged(books[p]) ==> o == p)
  }

  /** The lookup is also guarded against the organisations it does not ask. */
  ghost predicate GuardedIn(books: Books, o: Organisation, act: Action) {
    && Guarded(In(books, o), act)
    && (FindsNone(In(books, o), act) ==> forall p :: p in books && p != o ==> !Engaged(books[p]))
  }

  ghost predicate GuardedRunIn(books: Books, acts: seq<(Organisation, Action)>)
    decreases |acts|
  {
    acts == [] ||
      (GuardedIn(books, acts[0].0, acts[0].1) && GuardedRunIn(StepIn(books, acts[0].0, acts[0].1), acts[1..]))
  }

  lemma GuardedStepKeepsWorld(w: World, act: Action)
    requires Valid(w) && OneInvoice(w) && Guarded(w, act)
    ensures Valid(Step(w, act)) && OneInvoice(Step(w, act))
    ensures Engaged(Step(w, act)) ==> Engaged(w) || FindsNone(w, act)
  {
    StepKeepsValid(w, act);
    GuardedStepKeepsOneInvoice(w, act);
  }

  lemma GuardedStepKeepsConsistent(books: Books, o: Organisation, act: Action)
    requires Consistent(books) && GuardedIn(books, o, act)
    ensures Consistent(StepIn(books, o, act))
  {
    GuardedStepKeepsWorld(In(books, o), Allowed(books, o, act));
  }

  lemma {:induction false} GuardedRunKeepsConsistent(books: Books, acts: seq<(Organisation, Action)>)
    requires Consistent(books) && GuardedRunIn(books, acts)
    ensures Consistent(RunIn(books, acts))
    decreases |acts|
  {
    if acts != [] {
      GuardedStepKeepsConsistent(books, acts[0].0, acts[0].1);
      GuardedRunKeepsConsistent(StepIn(books, acts[0].0, acts[0].1), acts[1..]);
    }
  }

  /** At most one live invoice over all organisations, when lookups are guarded across them. */
  lemma NeverInvoicedTwiceAnywhere(acts: seq<(Organisation, Action)>, o: Organisation, p: Organisation, i: nat, j: nat)
    requires GuardedRunIn(map[], acts)
    requires var books := RunIn(map[], acts);
             && o in books && p in books && i < |books[o].shared.ledger| && j < |books[p].shared.ledger|
             && books[o].shared.ledger[i].live && books[p].shared.ledger[j].live
    ensures o == p && i == j
  {
    GuardedRunKeepsConsistent(map[], acts);
    var books := RunIn(map[], acts);
    assert HasLive(books[o].shared.ledger) && HasLive(books[p].shared.ledger);
  }

  // ----- That guard is exact too -----

  function Within(o: Organisation, acts: seq<Action>): seq<(Organisation, Action)> {
    if acts == [] then [] else [(o, acts[0])] + Within(o, acts[1..])
  }

  predicate NoneLooksIn(acts: seq<(Organisation, Action)>) {
    forall act :: act in acts ==> !act.1.Start? && !(act.1.Does? && act.1.event.Lookup?)
  }

  /** What no attempt begins or looks up in runs in one organisation as it would alone, guarded alike. */
  lemma {:induction false} ContinueWithin(books: Books, o: Organisation, acts: seq<Action>)
    requires NoneLooks(acts) && GuardedRun(In(books, o), acts)
    ensures var after := RunIn(books, Within(o, acts));
            In(after, o) == Run(In(books, o), acts) && forall p :: p != o ==> In(after, p) == In(books, p)
    ensures NoneLooksIn(Within(o, acts)) && GuardedRunIn(books, Within(o, acts))
    decreases |acts|
  {
    if acts != [] {
      assert acts[0] in acts;
      assert forall act :: act in acts[1..] ==> act in acts;
      var next := StepIn(books, o, acts[0]);
      assert next[o] == Step(In(books, o), acts[0]);
      assert Within(o, acts)[1..] == Within(o, acts[1..]);
      ContinueWithin(next, o, acts[1..]);
    }
  }

  lemma {:induction false} RunInAppend(books: Books, first: seq<(Organisation, Action)>,
      second: seq<(Organisation, Action)>)
    ensures RunIn(books, first + second) == RunIn(RunIn(books, first), second)
    decreases |first|
  {
    if first == [] {
      assert first + second == second;
    } else {
      assert (first + second)[1..] == first[1..] + second;
      RunInAppend(StepIn(books, first[0].0, first[0].1), first[1..], second);
    }
  }

  lemma {:induction false} GuardedInAppend(books: Books, first: seq<(Organisation, Action)>,
      second: seq<(Organisation, Action)>)
    requires GuardedRunIn(books, first) && GuardedRunIn(RunIn(books, first), second)
    ensures GuardedRunIn(books, first + second)
    decreases |first|
  {
    if first == [] {
      assert first + second == second;
    } else {
      assert (first + second)[1..] == first[1..] + second;
      GuardedInAppend(StepIn(books, first[0].0, first[0].1), first[1..], second);
    }
  }

  /** Two live invoices: in one organisation, or one each in two. */
  ghost predicate InvoicedTwice(books: Books) {
    || (exists o :: |LiveInvoices(In(books, o).shared.ledger)| >= 2)
    || (exists o, p :: o != p && HasLive(In(books, o).shared.ledger) && HasLive(In(books, p).shared.ledger))
  }

  lemma ConsistentMeansOnce(books: Books)
    requires Consistent(books)
    ensures !InvoicedTwice(books)
  {
    forall o
      ensures |LiveInvoices(In(books, o).shared.ledger)| <= 1
    {
      LiveCount(In(books, o).shared.ledger);
    }
  }

  /** An engaged organisation can be brought to hold a live invoice by what is pending there. */
  lemma EngagedCanHold(w: World) returns (acts: seq<Action>)
    requires Valid(w) && Engaged(w)
    ensures HasLive(Run(w, acts).shared.ledger) && NoneLooks(acts) && GuardedRun(w, acts)
  {
    if HasLive(w.shared.ledger) {
      acts := [];
    } else {
      var b :| b in w.workers && Pending(w.workers[b]).Some?;
      acts := PendingCanHold(w, b);
    }
  }

  lemma EngagedInTwoCanDuplicate(books: Books, o: Organisation, p: Organisation)
    returns (acts: seq<(Organisation, Action)>)
    requires o != p && Valid(In(books, o)) && Valid(In(books, p)) && Engaged(In(books, o)) && Engaged(In(books, p))
    ensures InvoicedTwice(RunIn(books, acts)) && NoneLooksIn(acts) && GuardedRunIn(books, acts)
  {
    var here := EngagedCanHold(In(books, o));
    var there := EngagedCanHold(In(books, p));
    acts := Within(o, here) + Within(p, there);
    ContinueWithin(books, o, here);
    RunInAppend(books, Within(o, here), Within(p, there));
    ContinueWithin(RunIn(books, Within(o, here)), p, there);
    GuardedInAppend(books, Within(o, here), Within(p, there));
  }

  lemma EngagedElsewhereCanDuplicate(books: Books, o: Organisation, p: Organisation, act: Action)
    returns (acts: seq<(Organisation, Action)>)
    requires Consistent(books) && Guarded(In(books, o), act) && !GuardedIn(books, o, act)
    requires p in books && p != o && Engaged(books[p])
    ensures InvoicedTwice(RunIn(StepIn(books, o, act), acts))
    ensures NoneLooksIn(acts) && GuardedRunIn(StepIn(books, o, act), acts)
  {
    var next := StepIn(books, o, act);
    StepKeepsValid(In(books, o), act);
    assert Pending(next[o].workers[act.a]).Some?;
    acts := EngagedInTwoCanDuplicate(next, o, p);
  }

  /**
   From consistent books, a step that breaks the guard, by a lookup that finds nothing while another
   organisation is engaged or in the ways one organisation's guard can break, can be continued to two
   live invoices, though every later step is guarded, none looks the invoice up and no attempt begins.
   */
  lemma UnguardedInCanDuplicate(books: Books, o: Organisation, act: Action) returns (acts: seq<(Organisation, Action)>)
    requires Consistent(books) && !GuardedIn(books, o, act)
    ensures InvoicedTwice(RunIn(StepIn(books, o, act), acts))
    ensures NoneLooksIn(acts) && GuardedRunIn(StepIn(books, o, act), acts)
  {
    var w := In(books, o);
    if !Guarded(w, act) {
      var more := UnguardedStepCanDuplicate(w, act);
      acts := Within(o, more);
      ContinueWithin(StepIn(books, o, act), o, more);
    } else {
      var p :| p in books && p != o && Engaged(books[p]);
      acts := EngagedElsewhereCanDuplicate(books, o, p, act);
    }
  }

  /** Through every guarded continuation there is at most one live invoice over all organisations. */
  ghost predicate StaysSingleIn(books: Books) {
    forall acts :: GuardedRunIn(books, acts) ==> !InvoicedTwice(RunIn(books, acts))
  }

  /** The guard across organisations is exact: only a guarded step leaves each guarded continuation with one invoice. */
  lemma GuardedInExactlyWhen(books: Books, o: Organisation, act: Action)
    requires Consistent(books)
    ensures StaysSingleIn(StepIn(books, o, act)) <==> GuardedIn(books, o, act)
  {
    var next := StepIn(books, o, act);
    if GuardedIn(books, o, act) {
      GuardedStepKeepsConsistent(books, o, act);
      forall acts | GuardedRunIn(next, acts)
        ensures !InvoicedTwice(RunIn(next, acts))
      {
        GuardedRunKeepsConsistent(next, acts);
        ConsistentMeansOnce(RunIn(next, acts));
      }
    } else {
      var acts := UnguardedInCanDuplicate(books, o, act);
      assert GuardedRunIn(next, acts) && InvoicedTwice(RunIn(next, acts));
    }
  }

  // ----- A switch of organisation -----

  const NoReply := CallFails(Provider(ProviderError(true, false, None, true)), 0, 3)

  /** An attempt whose create is carried out but never answered; the export ends FAILED. */
  function Asks(a: Attempt): seq<Action> {
    [Start(a, true), Does(a, Insert(0)), Does(a, Assemble(1)), Does(a, Lookup)]
  }

  function Sends(a: Attempt): seq<Action> {
    [Does(a, Send), Does(a, Settle)]
  }

  function Fails(a: Attempt): seq<Action> {
    [Does(a, NoReply), Does(a, RecordFailure(1))]
  }

  function Loses(a: Attempt): seq<Action> {
    Sends(a) + Fails(a)
  }

  function Unanswered(a: Attempt): seq<Action> {
    Asks(a) + Loses(a)
  }

  lemma AfterAsks(a: Attempt)
    ensures var w := Run(Fresh, Asks(a));
            && w.shared == Shared(Some(InsertRow(0, 0)), 1, [], map[])
            && a in w.workers && w.workers[a] == At(Creating(0, Key(0, 1)))
  {
    var acts := Asks(a);
    var w1 := Step(Fresh, acts[0]);
    var w2 := Step(w1, acts[1]);
    var w3 := Step(w2, acts[2]);
    var w4 := Step(w3, acts[3]);
    RunTrace(acts, [Fresh, w1, w2, w3, w4]);
  }

  lemma AfterSends(w: World, a: Attempt)
    requires w.shared == Shared(Some(InsertRow(0, 0)), 1, [], map[])
    requires a in w.workers && w.workers[a] == At(Creating(0, Key(0, 1)))
    ensures var sent := Run(w, Sends(a));
            && a in sent.workers && sent.workers[a].pc == Answered(0, Some(0))
            && sent.shared == Shared(Some(InsertRow(0, 0)), 1, [Invoice(Key(0, 1), true)], map[Key(0, 1) := 0])
  {
    var w1 := Step(w, Does(a, Send));
    RunTrace(Sends(a), [w, w1, Step(w1, Does(a, Settle))]);
  }

  lemma AfterFails(w: World, a: Attempt)
    requires w.shared == Shared(Some(InsertRow(0, 0)), 1, [Invoice(Key(0, 1), true)], map[Key(0, 1) := 0])
    requires a in w.workers && w.workers[a].pc == Answered(0, Some(0))
    ensures Run(w, Fails(a)).shared == w.shared.(row := Some(ExportRow(0, FAILED, 1, 1, None)))
  {
    var w1 := Step(w, Does(a, NoReply));
    assert w1.shared == w.shared && w1.workers[a].pc == Failing(0, false);
    RunTrace(Fails(a), [w, w1, Step(w1, Does(a, RecordFailure(1)))]);
  }

  lemma AfterLoses(w: World, a: Attempt)
    requires w.shared == Shared(Some(InsertRow(0, 0)), 1, [], map[])
    requires a in w.workers && w.workers[a] == At(Creating(0, Key(0, 1)))
    ensures Run(w, Loses(a)).shared
         == Shared(Some(ExportRow(0, FAILED, 1, 1, None)), 1, [Invoice(Key(0, 1), true)], map[Key(0, 1) := 0])
  {
    RunAppend(w, Sends(a), Fails(a));
    AfterSends(w, a);
    AfterFails(Run(w, Sends(a)), a);
  }

  lemma AfterUnanswered(a: Attempt)
    ensures var w := Run(Fresh, Unanswered(a));
            HasLive(w.shared.ledger) && w.shared.row == Some(ExportRow(0, FAILED, 1, 1, None))
  {
    RunAppend(Fresh, Asks(a), Loses(a));
    AfterAsks(a);
    AfterLoses(Run(Fresh, Asks(a)), a);
  }

  /** While no other organisation's export is COMPLETED, one organisation's steps run as they would alone. */
  lemma {:induction false} RunWithin(books: Books, o: Organisation, acts: seq<Action>)
    requires !CompletedElsewhere(books, o)
    ensures var after := RunIn(books, Within(o, acts));
            && In(after, o) == Run(In(books, o), acts)
            && (forall p :: p != o ==> In(after, p) == In(books, p) && (p in after <==> p in books))
    decreases |acts|
  {
    if acts != [] {
      var next := StepIn(books, o, acts[0]);
      assert next[o] == Step(In(books, o), acts[0]);
      assert Within(o, acts)[1..] == Within(o, acts[1..]);
      RunWithin(next, o, acts[1..]);
    }
  }

  /**
   The guarantee is per organisation. The create in organisation 0 is carried out but never
   answered; the distributor switches to organisation 1, where the retry finds no COMPLETED export
   and no invoice, and the order ends with a live invoice in each.
   */
  lemma SwitchedOrganisationDuplicates()
    ensures var books := RunIn(map[], Within(0, Unanswered(0)) + Within(1, Unanswered(1)));
            HasLive(In(books, 0).shared.ledger) && HasLive(In(books, 1).shared.ledger)
  {
    RunInAppend(map[], Within(0, Unanswered(0)), Within(1, Unanswered(1)));
    RunWithin(map[], 0, Unanswered(0));
    AfterUnanswered(0);
    var books := RunIn(map[], Within(0, Unanswered(0)));
    assert !CompletedElsewhere(books, 1);
    RunWithin(books, 1, Unanswered(1));
    AfterUnanswered(1);
  }
}
