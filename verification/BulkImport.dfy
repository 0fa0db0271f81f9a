/**
 One bulk import of contacts (apps/api/src/accounting-bulk-import/accounting-bulk-import.processor.ts):
 what an attempt does to the links, and what attempts that died leave for the one that finishes.
 */
module BulkImport {
  import opened Wrappers
  import opened ContactReview

  datatype Outcome = Imported | Matched | Skipped | Failed

  datatype Reason = NoReason | AlreadyLinked | NotEligible | ContactNotFound | Refused(answer: Answer)

  datatype ItemResult = ItemResult(externalId: ContactId, outcome: Outcome, error: Reason)

  /** What processOneContact calls for a contact, decided on its current row. */
  datatype Plan = Report(result: ItemResult) | ConfirmIt(suggestion: nat) | ImportIt

  /** `honour` is the job's honourSuggestions, `conflicted` the set fetched when the attempt began. */
  function PlanFor(store: Store, honour: bool, id: ContactId, conflicted: set<CustomerId>): Plan {
    if id !in store.contacts then Report(ItemResult(id, Failed, ContactNotFound))
    else
      var status := Status(store, id, conflicted);
      var suggestion := FindSuggestion(store.suggestions, id);
      if status.LINKED? then Report(ItemResult(id, Skipped, AlreadyLinked))
      else if status.NOT_A_CUSTOMER? || status.ARCHIVED? then Report(ItemResult(id, Skipped, NotEligible))
      else if honour && (status.SUGGESTED? || status.CONFLICT?) && suggestion.Some? then ConfirmIt(suggestion.value)
      else ImportIt
  }

  function ResultOf(id: ContactId, success: Outcome, answer: Answer): ItemResult {
    if answer.Done? then ItemResult(id, success, NoReason) else ItemResult(id, Failed, Refused(answer))
  }

  /** processOneContact, without leaning on the unique index over contacts. */
  function ProcessOne(store: Store, honour: bool, id: ContactId, conflicted: set<CustomerId>): (Store, ItemResult) {
    match PlanFor(store, honour, id, conflicted)
    case Report(result) => (store, result)
    case ConfirmIt(i) =>
      var (next, answer) := ConfirmSuggestion(store, i, false);
      (next, ResultOf(id, Matched, answer))
    case ImportIt =>
      var (next, answer) := ImportAsNewCustomer(store, id, NO_DETAILS, false);
      (next, ResultOf(id, Imported, answer))
  }

  function ProcessAll(store: Store, honour: bool, ids: seq<ContactId>, conflicted: set<CustomerId>)
    : (Store, seq<ItemResult>)
    decreases |ids|
  {
    if ids == [] then (store, [])
    else
      var (next, result) := ProcessOne(store, honour, ids[0], conflicted);
      var (last, results) := ProcessAll(next, honour, ids[1..], conflicted);
      (last, [result] + results)
  }

  function CountOf(results: seq<ItemResult>, outcome: Outcome): nat {
    Count(results, (r: ItemResult) => r.outcome == outcome)
  }

  /** Where in the results the outcome is. */
  ghost function IndexesOf(results: seq<ItemResult>, outcome: Outcome): set<nat> {
    set i: nat | i < |results| && results[i].outcome == outcome
  }

  lemma {:induction false} CountOfAppend(results: seq<ItemResult>, last: ItemResult, outcome: Outcome)
    ensures CountOf(results + [last], outcome) == CountOf(results, outcome) + if last.outcome == outcome then 1 else 0
  {
    if results == [] {
      assert results + [last] == [last] && [last][1..] == [];
    } else {
      assert (results + [last])[1..] == results[1..] + [last];
      CountOfAppend(results[1..], last, outcome);
    }
  }

  /** A count is the number of results with that outcome. */
  lemma {:induction false} CountIsOfIndexes(results: seq<ItemResult>, outcome: Outcome)
    ensures CountOf(results, outcome) == |IndexesOf(results, outcome)|
    decreases |results|
  {
    if results == [] {
      assert IndexesOf(results, outcome) == {};
    } else {
      var n := |results| - 1;
      var before, last := results[..n], results[n];
      assert results == before + [last];
      CountOfAppend(before, last, outcome);
      CountIsOfIndexes(before, outcome);
      assert IndexesOf(results, outcome) == IndexesOf(before, outcome) + if last.outcome == outcome then {n} else {};
    }
  }

  // ----- One item -----

  /**
   An item is imported or matched exactly when it gives an unlinked contact its link, and otherwise
   changes nothing. No contact gains a second link, with or without the index.
   */
  lemma ProcessOneLinksOnce(store: Store, honour: bool, id: ContactId, conflicted: set<CustomerId>)
    requires ValidStore(store)
    ensures var (next, result) := ProcessOne(store, honour, id, conflicted);
      && ValidStore(next)
      && (OneLinkPerContact(store.mappings) ==> OneLinkPerContact(next.mappings))
      && result.externalId == id
      && (forall c :: Linked(next, c) <==>
            Linked(store, c) || (c == id && (result.outcome.Imported? || result.outcome.Matched?)))
      && (result.outcome.Imported? || result.outcome.Matched? ==> !Linked(store, id))
      && (result.outcome.Skipped? || result.outcome.Failed? ==> next == store)
  {
    var (next, result) := ProcessOne(store, honour, id, conflicted);
    match PlanFor(store, honour, id, conflicted)
    case Report(_) =>
    case ConfirmIt(i) =>
      ConfirmKeepsOneLink(store, i, false);
      MappedOrSame(store, next, id, store.suggestions[i].customerId);
    case ImportIt =>
      ImportKeepsOneLink(store, id, NO_DETAILS, false);
      MappedOrSame(store, next, id, store.customers);
  }

  /** Links after a mapping was added, or none was. */
  lemma MappedOrSame(store: Store, next: Store, id: ContactId, customer: CustomerId)
    requires next.mappings == store.mappings || next.mappings == store.mappings + [Mapping(id, customer, true)]
    ensures forall c :: Linked(next, c) <==> Linked(store, c) || (c == id && next.mappings != store.mappings)
    ensures forall x :: CustomerLinked(next, x) <==>
      CustomerLinked(store, x) || (x == customer && next.mappings != store.mappings)
  {
    if next.mappings != store.mappings {
      var m := Mapping(id, customer, true);
      assert forall x :: x in next.mappings <==> x in store.mappings || x == m;
    }
  }

  /** A stale conflict set changes nothing: suggested and in conflict are handled alike. */
  lemma StaleConflictsAreHarmless(store: Store, honour: bool, id: ContactId, a: set<CustomerId>, b: set<CustomerId>)
    ensures ProcessOne(store, honour, id, a) == ProcessOne(store, honour, id, b)
  {
  }

  /** Importing the contact could create its customer: it has a name, and its number is free. */
  predicate CanCreate(store: Store, id: ContactId)
    requires id in store.contacts
  {
    Creatable(store, DetailsFor(store.contacts[id], NO_DETAILS))
  }

  /**
   What becomes of an item, in terms of its row: with a pending suggestion it is matched, if suggestions
   are honoured, and imported otherwise; without one it is imported if ignored, or a customer not
   archived. It fails only if the row is gone, the suggested customer was linked meanwhile, or the
   customer to import it as has no name or a number another customer holds.
   */
  lemma OutcomeExactlyWhen(store: Store, honour: bool, id: ContactId, conflicted: set<CustomerId>)
    requires ValidStore(store)
    ensures var outcome := ProcessOne(store, honour, id, conflicted).1.outcome;
      var pending := FindSuggestion(store.suggestions, id);
      var unlinked := id in store.contacts && !Linked(store, id);
      var matches := unlinked && honour && pending.Some?;
      var imports := unlinked && if pending.Some? then !honour else
        store.contacts[id].ignored || (store.contacts[id].isCustomer && !store.contacts[id].isArchived);
      && (outcome.Imported? <==> imports && CanCreate(store, id))
      && (outcome.Matched? <==> matches && !CustomerLinked(store, store.suggestions[pending.value].customerId))
      && (outcome.Failed? <==>
          || id !in store.contacts
          || (matches && CustomerLinked(store, store.suggestions[pending.value].customerId))
          || (imports && !CanCreate(store, id)))
  {
  }

  // ----- The whole selection -----

  lemma {:induction false} ProcessAllLinksOnce(store: Store, honour: bool, ids: seq<ContactId>,
      conflicted: set<CustomerId>)
    requires ValidStore(store)
    ensures var (last, results) := ProcessAll(store, honour, ids, conflicted);
      && ValidStore(last)
      && (OneLinkPerContact(store.mappings) ==> OneLinkPerContact(last.mappings))
      && |results| == |ids|
    decreases |ids|
  {
    if ids != [] {
      ProcessOneLinksOnce(store, honour, ids[0], conflicted);
      ProcessAllLinksOnce(ProcessOne(store, honour, ids[0], conflicted).0, honour, ids[1..], conflicted);
    }
  }

  lemma {:induction false} OneResultPerId(store: Store, honour: bool, ids: seq<ContactId>, conflicted: set<CustomerId>)
    requires ValidStore(store)
    ensures var results := ProcessAll(store, honour, ids, conflicted).1;
      |results| == |ids| && forall i :: 0 <= i < |ids| ==> results[i].externalId == ids[i]
    decreases |ids|
  {
    if ids != [] {
      ProcessOneLinksOnce(store, honour, ids[0], conflicted);
      OneResultPerId(ProcessOne(store, honour, ids[0], conflicted).0, honour, ids[1..], conflicted);
    }
  }

  lemma {:induction false} ProcessAllAppend(store: Store, honour: bool, a: seq<ContactId>, b: seq<ContactId>,
      conflicted: set<CustomerId>)
    ensures var (mid, first) := ProcessAll(store, honour, a, conflicted);
      var (last, second) := ProcessAll(mid, honour, b, conflicted);
      ProcessAll(store, honour, a + b, conflicted) == (last, first + second)
    decreases |a|
  {
    if a == [] {
      assert a + b == b;
      var second := ProcessAll(store, honour, b, conflicted).1;
      assert [] + second == second;
    } else {
      assert (a + b)[1..] == a[1..] + b;
      var (next, result) := ProcessOne(store, honour, a[0], conflicted);
      ProcessAllAppend(next, honour, a[1..], b, conflicted);
      var (mid, first) := ProcessAll(next, honour, a[1..], conflicted);
      var second := ProcessAll(mid, honour, b, conflicted).1;
      assert [result] + (first + second) == ([result] + first) + second;
    }
  }

  lemma {:induction false} CountsSum(results: seq<ItemResult>)
    ensures CountOf(results, Imported) + CountOf(results, Matched)
      + CountOf(results, Skipped) + CountOf(results, Failed)
      == |results|
  {
    if results != [] { CountsSum(results[1..]); }
  }

  // ----- Resuming -----

  /** Processing the contact again would change nothing. */
  predicate Settled(store: Store, honour: bool, id: ContactId) {
    ProcessOne(store, honour, id, {}).0 == store
  }

  /** Suggestions of other contacts are found where they were. */
  lemma {:induction false} FindSuggestionElsewhere(a: seq<Suggestion>, b: seq<Suggestion>, c: ContactId, i: nat)
    requires |a| == |b| && i <= |a|
    requires forall k :: 0 <= k < |a| && (a[k].contactId == c || b[k].contactId == c) ==> a[k] == b[k]
    ensures FindSuggestion(a, c, i) == FindSuggestion(b, c, i)
    decreases |a| - i
  {
    if i < |a| { FindSuggestionElsewhere(a, b, c, i + 1); }
  }

  /** What an item leaves of the other contacts: contacts, their suggestions, and every link there was. */
  lemma ProcessOneTouchesOne(store: Store, honour: bool, id: ContactId, other: ContactId)
    requires ValidStore(store) && other != id
    ensures var next := ProcessOne(store, honour, id, {}).0;
      && next.contacts == store.contacts
      && FindSuggestion(next.suggestions, other) == FindSuggestion(store.suggestions, other)
      && |next.suggestions| == |store.suggestions|
      && (forall i :: 0 <= i < |next.suggestions| ==> next.suggestions[i].customerId == store.suggestions[i].customerId)
      && (forall i :: 0 <= i < |next.suggestions| ==> next.suggestions[i].contactId == store.suggestions[i].contactId)
      && (forall x :: CustomerLinked(store, x) ==> CustomerLinked(next, x))
      && store.numbers <= next.numbers
  {
    var next := ProcessOne(store, honour, id, {}).0;
    if next != store {
      match PlanFor(store, honour, id, {})
      case Report(_) =>
      case ConfirmIt(i) => MappedOrSame(store, next, id, store.suggestions[i].customerId);
      case ImportIt => MappedOrSame(store, next, id, store.customers);
    }
    FindSuggestionElsewhere(next.suggestions, store.suggestions, other, 0);
  }

  lemma SettledMeans(store: Store, honour: bool, id: ContactId)
    requires ValidStore(store)
    ensures var plan := PlanFor(store, honour, id, {});
      Settled(store, honour, id) <==>
      match plan
      case Report(_) => true
      case ConfirmIt(i) => CustomerLinked(store, store.suggestions[i].customerId)
      case ImportIt => !CanCreate(store, id)
  {
  }

  /** The plan for a contact depends on its row, its link and its first pending suggestion only. */
  lemma PlanDependsOn(a: Store, b: Store, honour: bool, id: ContactId)
    requires a.contacts == b.contacts && (Linked(a, id) <==> Linked(b, id))
    requires FindSuggestion(a.suggestions, id) == FindSuggestion(b.suggestions, id)
    ensures PlanFor(a, honour, id, {}) == PlanFor(b, honour, id, {})
  {
  }

  lemma StaysSettled(store: Store, honour: bool, id: ContactId, other: ContactId)
    requires ValidStore(store) && Settled(store, honour, id)
    ensures Settled(ProcessOne(store, honour, other, {}).0, honour, id)
  {
    if other != id {
      var next := ProcessOne(store, honour, other, {}).0;
      ProcessOneTouchesOne(store, honour, other, id);
      ProcessOneLinksOnce(store, honour, other, {});
      PlanDependsOn(store, next, honour, id);
      SettledMeans(store, honour, id);
      SettledMeans(next, honour, id);
    }
  }

  ghost predicate AllSettled(store: Store, honour: bool, ids: seq<ContactId>) {
    forall id :: id in ids ==> Settled(store, honour, id)
  }

  /** After a pass over `ids`, and whatever is processed next, a second pass over them changes nothing. */
  lemma {:induction false} SettledStays(store: Store, honour: bool, settled: seq<ContactId>, ids: seq<ContactId>)
    requires ValidStore(store) && AllSettled(store, honour, settled)
    ensures AllSettled(ProcessAll(store, honour, ids, {}).0, honour, settled + ids)
    decreases |ids|
  {
    if ids == [] {
      assert settled + ids == settled;
    } else {
      var next := ProcessOne(store, honour, ids[0], {}).0;
      ProcessOneLinksOnce(store, honour, ids[0], {});
      forall id | id in settled + [ids[0]]
        ensures Settled(next, honour, id)
      {
        if id != ids[0] { StaysSettled(store, honour, id, ids[0]); }
      }
      SettledStays(next, honour, settled + [ids[0]], ids[1..]);
      assert settled + [ids[0]] + ids[1..] == settled + ids;
    }
  }

  lemma {:induction false} SettledIsUnchanged(store: Store, honour: bool, ids: seq<ContactId>)
    requires AllSettled(store, honour, ids)
    ensures ProcessAll(store, honour, ids, {}).0 == store
    decreases |ids|
  {
    if ids != [] {
      assert ids[0] in ids;
      assert forall id :: id in ids[1..] ==> id in ids;
      SettledIsUnchanged(store, honour, ids[1..]);
    }
  }

  /**
   The same contacts are linked, and the same of the customers a suggestion could name, and the same
   account numbers are held; the customers made by imports may be numbered differently.
   */
  ghost predicate SameLinks(a: Store, b: Store) {
    && a.contacts == b.contacts
    && a.suggestions == b.suggestions
    && a.numbers == b.numbers
    && (forall c :: Linked(a, c) <==> Linked(b, c))
    && (forall s :: s in a.suggestions ==> (CustomerLinked(a, s.customerId) <==> CustomerLinked(b, s.customerId)))
  }

  lemma ProcessOneSameLinks(a: Store, b: Store, honour: bool, id: ContactId)
    requires ValidStore(a) && ValidStore(b) && SameLinks(a, b)
    ensures SameLinks(ProcessOne(a, honour, id, {}).0, ProcessOne(b, honour, id, {}).0)
    ensures ProcessOne(a, honour, id, {}).1 == ProcessOne(b, honour, id, {}).1
  {
    var nextA, nextB := ProcessOne(a, honour, id, {}).0, ProcessOne(b, honour, id, {}).0;
    assert Linked(a, id) <==> Linked(b, id);
    assert PlanFor(a, honour, id, {}) == PlanFor(b, honour, id, {});
    match PlanFor(a, honour, id, {})
    case Report(_) =>
    case ConfirmIt(i) =>
      var s := a.suggestions[i];
      assert s in a.suggestions;
      MappedOrSame(a, nextA, id, s.customerId);
      MappedOrSame(b, nextB, id, s.customerId);
      forall t | t in nextA.suggestions
        ensures CustomerLinked(nextA, t.customerId) <==> CustomerLinked(nextB, t.customerId)
      {
        assert t in a.suggestions || t.customerId == s.customerId;
      }
    case ImportIt =>
      MappedOrSame(a, nextA, id, a.customers);
      MappedOrSame(b, nextB, id, b.customers);
  }

  lemma {:induction false} ProcessAllSameLinks(a: Store, b: Store, honour: bool, ids: seq<ContactId>)
    requires ValidStore(a) && ValidStore(b) && SameLinks(a, b)
    ensures SameLinks(ProcessAll(a, honour, ids, {}).0, ProcessAll(b, honour, ids, {}).0)
    ensures ProcessAll(a, honour, ids, {}).1 == ProcessAll(b, honour, ids, {}).1
    decreases |ids|
  {
    if ids != [] {
      ProcessOneSameLinks(a, b, honour, ids[0]);
      ProcessOneLinksOnce(a, honour, ids[0], {});
      ProcessOneLinksOnce(b, honour, ids[0], {});
      ProcessAllSameLinks(ProcessOne(a, honour, ids[0], {}).0, ProcessOne(b, honour, ids[0], {}).0, honour, ids[1..]);
    }
  }

  /** An attempt that died after `done` items, maybe leaving a customer it had not mapped yet. */
  datatype Death = Death(done: nat, orphan: bool)

  /** What is left where an item's customer was created and the worker died before mapping it. */
  function Orphaned(store: Store, honour: bool, id: ContactId): Store {
    if PlanFor(store, honour, id, {}).ImportIt? then BeginImport(store, id, NO_DETAILS).0 else store
  }

  function Aborted(store: Store, honour: bool, ids: seq<ContactId>, death: Death): Store
    requires death.done <= |ids|
  {
    var left := ProcessAll(store, honour, ids[..death.done], {}).0;
    if death.orphan && death.done < |ids| then Orphaned(left, honour, ids[death.done]) else left
  }

  predicate WithinSelection(deaths: seq<Death>, ids: seq<ContactId>) {
    forall d :: d in deaths ==> d.done <= |ids|
  }

  function AbortedAll(store: Store, honour: bool, ids: seq<ContactId>, deaths: seq<Death>): Store
    requires WithinSelection(deaths, ids)
    decreases |deaths|
  {
    if deaths == [] then store
    else
      assert deaths[0] in deaths;
      AbortedAll(Aborted(store, honour, ids, deaths[0]), honour, ids, deaths[1..])
  }

  /** A customer was created for the contact and not mapped, and it took the contact's account number. */
  predicate OrphansNumber(store: Store, honour: bool, id: ContactId) {
    && PlanFor(store, honour, id, {}).ImportIt?
    && CanCreate(store, id)
    && DetailsFor(store.contacts[id], NO_DETAILS).accountNumber.Some?
  }

  /** The death leaves such a customer. */
  predicate Strands(store: Store, honour: bool, ids: seq<ContactId>, death: Death)
    requires death.done <= |ids|
  {
    && death.orphan && death.done < |ids|
    && OrphansNumber(ProcessAll(store, honour, ids[..death.done], {}).0, honour, ids[death.done])
  }

  /** No death of a sequence leaves one, in the store that attempt met. */
  predicate NoneStrands(store: Store, honour: bool, ids: seq<ContactId>, deaths: seq<Death>)
    requires WithinSelection(deaths, ids)
    decreases |deaths|
  {
    deaths == [] ||
    (assert deaths[0] in deaths;
     !Strands(store, honour, ids, deaths[0])
     && NoneStrands(Aborted(store, honour, ids, deaths[0]), honour, ids, deaths[1..]))
  }

  lemma AbortedIsValid(store: Store, honour: bool, ids: seq<ContactId>, death: Death)
    requires ValidStore(store) && death.done <= |ids|
    ensures ValidStore(Aborted(store, honour, ids, death))
    ensures OneLinkPerContact(store.mappings) ==> OneLinkPerContact(Aborted(store, honour, ids, death).mappings)
    ensures !Strands(store, honour, ids, death) ==>
      SameLinks(Aborted(store, honour, ids, death), ProcessAll(store, honour, ids[..death.done], {}).0)
  {
    ProcessAllLinksOnce(store, honour, ids[..death.done], {});
  }

  /** The links an aborted attempt leaves do not change where a whole pass leads. */
  lemma AbortedReachesTheSame(store: Store, honour: bool, ids: seq<ContactId>, death: Death)
    requires ValidStore(store) && death.done <= |ids| && !Strands(store, honour, ids, death)
    ensures SameLinks(ProcessAll(Aborted(store, honour, ids, death), honour, ids, {}).0,
                      ProcessAll(store, honour, ids, {}).0)
  {
    var prefix, suffix := ids[..death.done], ids[death.done..];
    assert prefix + suffix == ids;
    var mid := ProcessAll(store, honour, prefix, {}).0;
    ProcessAllLinksOnce(store, honour, prefix, {});
    SettledStays(store, honour, [], prefix);
    assert [] + prefix == prefix;
    SettledIsUnchanged(mid, honour, prefix);
    ProcessAllAppend(store, honour, prefix, suffix, {});
    ProcessAllAppend(mid, honour, prefix, suffix, {});
    AbortedIsValid(store, honour, ids, death);
    ProcessAllSameLinks(Aborted(store, honour, ids, death), mid, honour, ids);
  }

  // ----- A contact whose number an unmapped customer took -----

  /** The contact is to be imported, and cannot be: a customer holds its number. */
  ghost predicate Stuck(store: Store, honour: bool, id: ContactId) {
    && PlanFor(store, honour, id, {}).ImportIt?
    && NumberOf(DetailsFor(store.contacts[id], NO_DETAILS)) * store.numbers != {}
  }

  lemma StaysStuck(store: Store, honour: bool, other: ContactId, id: ContactId)
    requires ValidStore(store) && Stuck(store, honour, id)
    ensures Stuck(ProcessOne(store, honour, other, {}).0, honour, id)
  {
    if other != id {
      var next := ProcessOne(store, honour, other, {}).0;
      ProcessOneTouchesOne(store, honour, other, id);
      ProcessOneLinksOnce(store, honour, other, {});
      PlanDependsOn(store, next, honour, id);
    }
  }

  lemma {:induction false} AllStayStuck(store: Store, honour: bool, ids: seq<ContactId>, id: ContactId)
    requires ValidStore(store) && Stuck(store, honour, id)
    ensures Stuck(ProcessAll(store, honour, ids, {}).0, honour, id)
    decreases |ids|
  {
    if ids != [] {
      StaysStuck(store, honour, ids[0], id);
      ProcessOneLinksOnce(store, honour, ids[0], {});
      AllStayStuck(ProcessOne(store, honour, ids[0], {}).0, honour, ids[1..], id);
    }
  }

  lemma AbortedStaysStuck(store: Store, honour: bool, ids: seq<ContactId>, death: Death, id: ContactId)
    requires ValidStore(store) && Stuck(store, honour, id) && death.done <= |ids|
    ensures Stuck(Aborted(store, honour, ids, death), honour, id)
  {
    AllStayStuck(store, honour, ids[..death.done], id);
    var left := ProcessAll(store, honour, ids[..death.done], {}).0;
    ProcessAllLinksOnce(store, honour, ids[..death.done], {});
    if death.orphan && death.done < |ids| {
      var orphaned := Orphaned(left, honour, ids[death.done]);
      PlanDependsOn(left, orphaned, honour, id);
    }
  }

  /** However many attempts follow, the contact stays without a link. */
  lemma {:induction false} StrandedStaysUnlinked(store: Store, honour: bool, ids: seq<ContactId>, deaths: seq<Death>,
      id: ContactId)
    requires ValidStore(store) && Stuck(store, honour, id) && WithinSelection(deaths, ids)
    ensures !Linked(ProcessAll(AbortedAll(store, honour, ids, deaths), honour, ids, {}).0, id)
    decreases |deaths|
  {
    if deaths == [] {
      AllStayStuck(store, honour, ids, id);
    } else {
      assert deaths[0] in deaths;
      AbortedStaysStuck(store, honour, ids, deaths[0], id);
      AbortedIsValid(store, honour, ids, deaths[0]);
      StrandedStaysUnlinked(Aborted(store, honour, ids, deaths[0]), honour, ids, deaths[1..], id);
    }
  }

  lemma StrandingSticks(store: Store, honour: bool, ids: seq<ContactId>, death: Death)
    requires ValidStore(store) && death.done <= |ids| && Strands(store, honour, ids, death)
    ensures Stuck(Aborted(store, honour, ids, death), honour, ids[death.done])
  {
    var left, id := ProcessAll(store, honour, ids[..death.done], {}).0, ids[death.done];
    var details := DetailsFor(left.contacts[id], NO_DETAILS);
    ProcessAllLinksOnce(store, honour, ids[..death.done], {});
    PlanDependsOn(left, Orphaned(left, honour, id), honour, id);
    assert details.accountNumber.value in NumberOf(details) * Orphaned(left, honour, id).numbers;
  }

  lemma {:induction false} LinksStay(store: Store, honour: bool, ids: seq<ContactId>, id: ContactId)
    requires ValidStore(store) && Linked(store, id)
    ensures Linked(ProcessAll(store, honour, ids, {}).0, id)
    decreases |ids|
  {
    if ids != [] {
      ProcessOneLinksOnce(store, honour, ids[0], {});
      LinksStay(ProcessOne(store, honour, ids[0], {}).0, honour, ids[1..], id);
    }
  }

  /** An uninterrupted attempt would have linked the contact. */
  lemma WouldHaveLinked(store: Store, honour: bool, ids: seq<ContactId>, death: Death)
    requires ValidStore(store) && death.done <= |ids| && Strands(store, honour, ids, death)
    ensures Linked(ProcessAll(store, honour, ids, {}).0, ids[death.done])
  {
    var prefix, suffix := ids[..death.done], ids[death.done..];
    assert prefix + suffix == ids && suffix[0] == ids[death.done];
    var left := ProcessAll(store, honour, prefix, {}).0;
    ProcessAllLinksOnce(store, honour, prefix, {});
    ProcessAllAppend(store, honour, prefix, suffix, {});
    ProcessOneLinksOnce(left, honour, suffix[0], {});
    LinksStay(ProcessOne(left, honour, suffix[0], {}).0, honour, suffix[1..], suffix[0]);
  }

  /**
   However many attempts died, wherever they died, the attempt that finishes leaves no contact and no
   customer with two links. It leaves the links one uninterrupted attempt would have left exactly when
   no death left an unmapped customer holding its contact's account number.
   */
  lemma {:induction false} ResumingIsHarmlessExactlyWhen(store: Store, honour: bool, ids: seq<ContactId>,
      deaths: seq<Death>)
    requires ValidStore(store) && OneLinkPerContact(store.mappings) && WithinSelection(deaths, ids)
    ensures var finished := ProcessAll(AbortedAll(store, honour, ids, deaths), honour, ids, {}).0;
      && OneLinkPerContact(finished.mappings) && OneLinkPerCustomer(finished.mappings)
      && (SameLinks(finished, ProcessAll(store, honour, ids, {}).0) <==> NoneStrands(store, honour, ids, deaths))
    decreases |deaths|
  {
    if deaths == [] {
      ProcessAllLinksOnce(store, honour, ids, {});
    } else {
      assert deaths[0] in deaths;
      var next := Aborted(store, honour, ids, deaths[0]);
      AbortedIsValid(store, honour, ids, deaths[0]);
      ResumingIsHarmlessExactlyWhen(next, honour, ids, deaths[1..]);
      if Strands(store, honour, ids, deaths[0]) {
        StrandingSticks(store, honour, ids, deaths[0]);
        StrandedStaysUnlinked(next, honour, ids, deaths[1..], ids[deaths[0].done]);
        WouldHaveLinked(store, honour, ids, deaths[0]);
      } else {
        AbortedReachesTheSame(store, honour, ids, deaths[0]);
      }
    }
  }

  /** One contact with a code, and one death after its customer is created: it is never linked. */
  lemma NumberedContactIsStranded(code: AccountNumber)
    ensures var contact := Contact(true, false, false, true, Some(code), None);
      var store := Store(map[0 := contact], [], [], 0, {});
      var (finished, results) := ProcessAll(Aborted(store, false, [0], Death(0, true)), false, [0], {});
      && results == [ItemResult(0, Failed, Refused(Conflict))] && !Linked(finished, 0)
      && ProcessAll(store, false, [0], {}).1 == [ItemResult(0, Imported, NoReason)]
      && Linked(ProcessAll(store, false, [0], {}).0, 0)
  {
  }
}
