/**
 Importing, confirming and matching as calls that overlap: each awaits its checks and its write one
 by one (apps/api/src/accounting/accounting-contact.service.ts), and between them others take theirs.
 */
module ContactRaces {
  import opened Wrappers
  import opened ContactReview

  type CallId = nat

  /** The unique indexes over linked mappings: one for each side of a link. */
  datatype Indexes = Indexes(contact: bool, customer: bool)

  datatype Side = ContactSide | CustomerSide

  /** What the transaction that writes a link does to the suggestions. */
  datatype Closing = Nothing | Accept(suggestion: nat) | Supersede

  /** A call, by what it does next. */
  datatype Call =
    /** An import that found its contact unlinked, before it creates the customer. */
    | Creating(contact: ContactId, details: CustomerDetails)
    /** A match that found its contact unlinked, before its own look at the customer's links. */
    | Matching(contact: ContactId, customer: CustomerId)
    /** Before createMapping's look at the customer's links. */
    | Checking(contact: ContactId, customer: CustomerId, closing: Closing)
    /** Before the write. */
    | Inserting(contact: ContactId, customer: CustomerId, closing: Closing)

  datatype World = World(store: Store, calls: map<CallId, Call>)

  datatype Action =
    | StartImport(id: CallId, contact: ContactId, dto: ImportContactDto)
    | StartConfirm(id: CallId, suggestion: nat)
    | StartMatch(id: CallId, contact: ContactId, customer: CustomerId)
    | Advance(id: CallId)
    /** The process stops, at any await. */
    | Die(id: CallId)
    | Dismiss(contact: ContactId)
    | Detach(mapping: nat)
    /** A customer is created elsewhere. */
    | NewCustomer(details: CustomerDetails)
    /** The matcher writes a suggestion. */
    | Suggest(contact: ContactId, customer: CustomerId)

  predicate IsStart(act: Action) {
    act.StartImport? || act.StartConfirm? || act.StartMatch?
  }

  /** The call a start leads to, if what it reads first lets it go on. */
  function Started(store: Store, act: Action): Option<Call>
    requires IsStart(act)
  {
    match act
    case StartImport(_, c, dto) =>
      if c in store.contacts && !FindLink(store.mappings, c)
      then Some(Creating(c, DetailsFor(store.contacts[c], dto)))
      else None
    case StartConfirm(_, i) =>
      if IsPending(store.suggestions, i) then
        Some(Checking(store.suggestions[i].contactId, store.suggestions[i].customerId, Accept(i)))
      else None
    case StartMatch(_, c, customer) =>
      if c in store.contacts && !FindLink(store.mappings, c) && customer < store.customers
      then Some(Matching(c, customer))
      else None
  }

  function Close(suggestions: seq<Suggestion>, c: ContactId, closing: Closing): seq<Suggestion> {
    match closing
    case Nothing => suggestions
    case Accept(i) => if i < |suggestions| then suggestions[i := suggestions[i].(review := Accepted)] else suggestions
    case Supersede => Settle(suggestions, c, Superseded)
  }

  /** A unique index that the database has refuses the write. */
  predicate Refused(mappings: seq<Mapping>, c: ContactId, customer: CustomerId, ix: Indexes) {
    (ix.contact && FindLink(mappings, c)) || (ix.customer && FindCustomerLink(mappings, customer))
  }

  function Advanced(w: World, id: CallId, ix: Indexes): World
    requires id in w.calls
  {
    var store, over := w.store, w.(calls := w.calls - {id});
    match w.calls[id]
    case Creating(c, details) =>
      var (created, answer) := CreateCustomer(store, details);
      if answer.Done? then World(created, w.calls[id := Checking(c, store.customers, Nothing)]) else over
    case Matching(c, customer) =>
      if FindCustomerLink(store.mappings, customer) then over
      else w.(calls := w.calls[id := Checking(c, customer, Supersede)])
    case Checking(c, customer, closing) =>
      if FindCustomerLink(store.mappings, customer) then over
      else w.(calls := w.calls[id := Inserting(c, customer, closing)])
    case Inserting(c, customer, closing) =>
      if Refused(store.mappings, c, customer, ix) then over
      else
        over.(store := store.(
          mappings := store.mappings + [Mapping(c, customer, true)],
          suggestions := Close(store.suggestions, c, closing)))
  }

  function Step(w: World, act: Action, ix: Indexes): World {
    match act
    case Advance(id) => if id in w.calls then Advanced(w, id, ix) else w
    case Die(id) => w.(calls := w.calls - {id})
    case Dismiss(c) => w.(store := Ignore(w.store, c).0)
    case Detach(i) => w.(store := Unlink(w.store, i).0)
    case NewCustomer(details) => w.(store := CreateCustomer(w.store, details).0)
    case Suggest(c, customer) =>
      if customer >= w.store.customers then w
      else w.(store := w.store.(suggestions := w.store.suggestions + [Suggestion(c, customer, Pending)]))
    case _ =>
      var call := Started(w.store, act);
      if act.id in w.calls || call.None? then w else w.(calls := w.calls[act.id := call.value])
  }

  function Run(w: World, acts: seq<Action>, ix: Indexes): World
    decreases |acts|
  {
    if acts == [] then w else Run(Step(w, acts[0], ix), acts[1..], ix)
  }

  lemma {:induction false} RunAppend(w: World, a: seq<Action>, b: seq<Action>, ix: Indexes)
    ensures Run(w, a + b, ix) == Run(Run(w, a, ix), b, ix)
    decreases |a|
  {
    if a == [] {
      assert a + b == b;
    } else {
      assert (a + b)[1..] == a[1..] + b;
      RunAppend(Step(w, a[0], ix), a[1..], b, ix);
    }
  }

  // ----- Alone, a call is its action -----

  function Advances(id: CallId, n: nat): (acts: seq<Action>)
    ensures |acts| == n && NoneStart(acts)
  {
    if n == 0 then [] else [Advance(id)] + Advances(id, n - 1)
  }

  ghost predicate NoneStart(acts: seq<Action>) {
    forall a :: a in acts ==> !IsStart(a)
  }

  lemma RunOne(w: World, act: Action, rest: seq<Action>, ix: Indexes)
    ensures Run(w, [act] + rest, ix) == Run(Step(w, act, ix), rest, ix)
  {
    assert ([act] + rest)[1..] == rest;
  }

  lemma {:induction false} EndedStaysEnded(w: World, id: CallId, n: nat, ix: Indexes)
    requires id !in w.calls
    ensures Run(w, Advances(id, n), ix) == w
  {
    if n > 0 {
      RunOne(w, Advance(id), Advances(id, n - 1), ix);
      EndedStaysEnded(w, id, n - 1, ix);
    }
  }

  /** What a call leaves that runs to its end with no other step between. */
  function Alone(w: World, id: CallId, ix: Indexes): World {
    Run(w, Advances(id, 3), ix)
  }

  lemma AloneUnfolds(w: World, id: CallId, ix: Indexes)
    ensures var first := Step(w, Advance(id), ix);
      var second := Step(first, Advance(id), ix);
      Alone(w, id, ix) == Step(second, Advance(id), ix)
  {
    var first := Step(w, Advance(id), ix);
    var second := Step(first, Advance(id), ix);
    RunOne(w, Advance(id), Advances(id, 2), ix);
    RunOne(first, Advance(id), Advances(id, 1), ix);
    RunOne(second, Advance(id), Advances(id, 0), ix);
  }

  lemma ImportAlone(w: World, id: CallId, c: ContactId, dto: ImportContactDto, ix: Indexes)
    requires NamesCustomers(w.store) && id !in w.calls
    ensures var after := Alone(Step(w, StartImport(id, c, dto), ix), id, ix);
      after == World(ImportAsNewCustomer(w.store, c, dto, ix.contact).0, w.calls)
  {
    var started := Step(w, StartImport(id, c, dto), ix);
    AloneUnfolds(started, id, ix);
    if id in started.calls {
      var first := Step(started, Advance(id), ix);
      if id in first.calls {
        assert !FindCustomerLink(w.store.mappings, w.store.customers);
        assert first.calls - {id} == w.calls;
      } else {
        assert started.calls - {id} == w.calls;
      }
    }
  }

  lemma MatchAlone(w: World, id: CallId, c: ContactId, customer: CustomerId, ix: Indexes)
    requires id !in w.calls
    ensures var after := Alone(Step(w, StartMatch(id, c, customer), ix), id, ix);
      after == World(MatchToExistingCustomer(w.store, c, customer, ix.contact).0, w.calls)
  {
    var started := Step(w, StartMatch(id, c, customer), ix);
    AloneUnfolds(started, id, ix);
    if id in started.calls {
      var first := Step(started, Advance(id), ix);
      if id in first.calls {
        assert first.calls - {id} == w.calls;
      } else {
        assert started.calls - {id} == w.calls;
      }
    }
  }

  lemma ConfirmAlone(w: World, id: CallId, i: nat, ix: Indexes)
    requires id !in w.calls
    ensures var after := Alone(Step(w, StartConfirm(id, i), ix), id, ix);
      after == World(ConfirmSuggestion(w.store, i, ix.contact).0, w.calls)
  {
    var started := Step(w, StartConfirm(id, i), ix);
    AloneUnfolds(started, id, ix);
    if id in started.calls {
      assert started.calls - {id} == w.calls;
    }
  }

  /** Without overlap the steps of each call come to the action taken at once. */
  lemma AloneIsTheAction(w: World, act: Action, ix: Indexes)
    requires NamesCustomers(w.store) && IsStart(act) && act.id !in w.calls
    ensures var after := Alone(Step(w, act, ix), act.id, ix);
      && after.calls == w.calls
      && after.store ==
         match act
         case StartImport(_, c, dto) => ImportAsNewCustomer(w.store, c, dto, ix.contact).0
         case StartConfirm(_, i) => ConfirmSuggestion(w.store, i, ix.contact).0
         case StartMatch(_, c, customer) => MatchToExistingCustomer(w.store, c, customer, ix.contact).0
  {
    match act
    case StartImport(id, c, dto) => ImportAlone(w, id, c, dto, ix);
    case StartConfirm(id, i) => ConfirmAlone(w, id, i, ix);
    case StartMatch(id, c, customer) => MatchAlone(w, id, c, customer, ix);
  }

  // ----- What can still collide -----

  predicate Same(side: Side, c: ContactId, x: CustomerId, d: ContactId, y: CustomerId) {
    if side.ContactSide? then c == d else x == y
  }

  /** The database would let both links stand. */
  predicate SideBySide(ix: Indexes, c: ContactId, x: CustomerId, d: ContactId, y: CustomerId) {
    !(ix.contact && c == d) && !(ix.customer && x == y)
  }

  predicate Collide(ix: Indexes, side: Side, c: ContactId, x: CustomerId, d: ContactId, y: CustomerId) {
    Same(side, c, x, d, y) && SideBySide(ix, c, x, d, y)
  }

  /** The call may yet write a link beside this one. Before its look, a link of its own customer stops it. */
  predicate LinkClash(store: Store, ix: Indexes, side: Side, call: Call, m: Mapping) {
    m.linked &&
    match call
    case Creating(c, details) => side.ContactSide? && !ix.contact && c == m.contactId && Creatable(store, details)
    case Inserting(c, x, _) => Collide(ix, side, c, x, m.contactId, m.customerId)
    case _ => call.customer != m.customerId && Collide(ix, side, call.contact, call.customer, m.contactId, m.customerId)
  }

  /** Both calls may yet write their links. Two imports of one account number create one customer. */
  predicate CallClash(store: Store, ix: Indexes, side: Side, a: Call, b: Call) {
    if a.Creating? || b.Creating? then
      && side.ContactSide? && !ix.contact && a.contact == b.contact
      && (a.Creating? ==> Creatable(store, a.details))
      && (b.Creating? ==> Creatable(store, b.details))
      && (a.Creating? && b.Creating? ==> NumberOf(a.details) !! NumberOf(b.details))
    else
      Collide(ix, side, a.contact, a.customer, b.contact, b.customer)
  }

  ghost predicate ClearOfLinks(store: Store, ix: Indexes, side: Side, call: Call) {
    forall m :: m in store.mappings ==> !LinkClash(store, ix, side, call, m)
  }

  ghost predicate ClearOf(store: Store, ix: Indexes, side: Side, calls: map<CallId, Call>, call: Call) {
    forall id :: id in calls ==> !CallClash(store, ix, side, call, calls[id])
  }

  /** No call clashes with a link or with another call. */
  ghost predicate Safe(w: World, ix: Indexes, side: Side) {
    && (forall id :: id in w.calls ==> ClearOfLinks(w.store, ix, side, w.calls[id]))
    && (forall id :: id in w.calls ==> ClearOf(w.store, ix, side, w.calls - {id}, w.calls[id]))
  }

  ghost predicate OneLink(side: Side, mappings: seq<Mapping>) {
    if side.ContactSide? then OneLinkPerContact(mappings) else OneLinkPerCustomer(mappings)
  }

  /** Links, suggestions and calls name customers that exist. */
  ghost predicate Sound(w: World) {
    && NamesCustomers(w.store)
    && forall id :: id in w.calls && !w.calls[id].Creating? ==> w.calls[id].customer < w.store.customers
  }

  /** A call may start only if it clashes with no link and no call under way. */
  ghost predicate Guarded(w: World, act: Action, ix: Indexes, side: Side) {
    IsStart(act) && act.id !in w.calls && Started(w.store, act).Some? ==>
      && ClearOfLinks(w.store, ix, side, Started(w.store, act).value)
      && ClearOf(w.store, ix, side, w.calls, Started(w.store, act).value)
  }

  ghost predicate GuardedRun(w: World, acts: seq<Action>, ix: Indexes, side: Side)
    decreases |acts|
  {
    acts == [] || (Guarded(w, acts[0], ix, side) && GuardedRun(Step(w, acts[0], ix), acts[1..], ix, side))
  }

  lemma StepKeepsSound(w: World, act: Action, ix: Indexes)
    requires Sound(w)
    ensures Sound(Step(w, act, ix))
  {
    match act
    case Advance(id) =>
    case Dismiss(c) => SettleKeeps(w.store.suggestions, c, Rejected, w.store.customers);
    case _ =>
  }

  // ----- Steps of calls under way keep it so -----

  /** Links gone and numbers taken only make clashes fewer. */
  lemma SafeShrinks(w: World, after: World, ix: Indexes, side: Side)
    requires Safe(w, ix, side)
    requires after.calls.Keys <= w.calls.Keys && forall id :: id in after.calls ==> after.calls[id] == w.calls[id]
    requires forall m :: m in after.store.mappings && m.linked ==> m in w.store.mappings
    requires w.store.numbers <= after.store.numbers
    ensures Safe(after, ix, side)
  {
    forall id | id in after.calls
      ensures ClearOfLinks(after.store, ix, side, after.calls[id])
    {
      assert ClearOfLinks(w.store, ix, side, w.calls[id]);
    }
    forall id | id in after.calls
      ensures ClearOf(after.store, ix, side, after.calls - {id}, after.calls[id])
    {
      assert ClearOf(w.store, ix, side, w.calls - {id}, w.calls[id]);
      forall other | other in after.calls - {id}
        ensures !CallClash(after.store, ix, side, after.calls[id], after.calls[other])
      {
        assert other in w.calls - {id} && !CallClash(w.store, ix, side, w.calls[id], (w.calls - {id})[other]);
      }
    }
  }

  /** One call is replaced by a call that is itself clear, and the store keeps its links and loses no number. */
  lemma SafeWith(w: World, id: CallId, next: Call, after: World, ix: Indexes, side: Side)
    requires Safe(w, ix, side) && after.calls == w.calls[id := next]
    requires after.store.mappings == w.store.mappings && w.store.numbers <= after.store.numbers
    requires ClearOfLinks(after.store, ix, side, next) && ClearOf(after.store, ix, side, w.calls - {id}, next)
    ensures Safe(after, ix, side)
  {
    var others := after.(calls := after.calls - {id});
    SafeShrinks(w, others, ix, side);
    assert after.calls - {id} == w.calls - {id};
    forall k | k in after.calls
      ensures ClearOfLinks(after.store, ix, side, after.calls[k])
      ensures ClearOf(after.store, ix, side, after.calls - {k}, after.calls[k])
    {
      if k != id {
        assert k in others.calls && ClearOf(others.store, ix, side, others.calls - {k}, others.calls[k]);
        forall other | other in after.calls - {k}
          ensures !CallClash(after.store, ix, side, after.calls[k], after.calls[other])
        {
          if other == id {
            assert k in w.calls - {id} && !CallClash(after.store, ix, side, next, (w.calls - {id})[k]);
          } else {
            assert other in others.calls - {k};
          }
        }
      }
    }
  }

  lemma LookKeepsSafe(w: World, id: CallId, ix: Indexes, side: Side)
    requires Sound(w) && Safe(w, ix, side) && id in w.calls && (w.calls[id].Matching? || w.calls[id].Checking?)
    ensures Safe(Advanced(w, id, ix), ix, side)
  {
    var call, after := w.calls[id], Advanced(w, id, ix);
    assert ClearOfLinks(w.store, ix, side, call) && ClearOf(w.store, ix, side, w.calls - {id}, call);
    if FindCustomerLink(w.store.mappings, call.customer) {
      SafeShrinks(w, after, ix, side);
    } else {
      var next := after.calls[id];
      forall m | m in w.store.mappings
        ensures !LinkClash(w.store, ix, side, next, m)
      {
        assert !LinkClash(w.store, ix, side, call, m);
      }
      forall other | other in w.calls - {id}
        ensures !CallClash(w.store, ix, side, next, (w.calls - {id})[other])
      {
        assert !CallClash(w.store, ix, side, call, (w.calls - {id})[other]);
      }
      SafeWith(w, id, next, after, ix, side);
    }
  }

  lemma CreatingKeepsSafe(w: World, id: CallId, ix: Indexes, side: Side)
    requires Sound(w) && Safe(w, ix, side) && id in w.calls && w.calls[id].Creating?
    ensures Safe(Advanced(w, id, ix), ix, side)
  {
    var call, after := w.calls[id], Advanced(w, id, ix);
    assert ClearOfLinks(w.store, ix, side, call) && ClearOf(w.store, ix, side, w.calls - {id}, call);
    if !Creatable(w.store, call.details) {
      SafeShrinks(w, after, ix, side);
    } else {
      var next := after.calls[id];
      forall m | m in w.store.mappings
        ensures !LinkClash(after.store, ix, side, next, m)
      {
        assert !LinkClash(w.store, ix, side, call, m);
      }
      forall other | other in w.calls - {id}
        ensures !CallClash(after.store, ix, side, next, (w.calls - {id})[other])
      {
        assert !CallClash(w.store, ix, side, call, (w.calls - {id})[other]);
      }
      SafeWith(w, id, next, after, ix, side);
    }
  }

  /** A write next to clear calls leaves them clear of the new link. */
  lemma InsertKeepsSafe(w: World, id: CallId, ix: Indexes, side: Side)
    requires Sound(w) && Safe(w, ix, side) && id in w.calls && w.calls[id].Inserting?
    ensures Safe(Advanced(w, id, ix), ix, side)
  {
    var call, after := w.calls[id], Advanced(w, id, ix);
    var over := w.(calls := w.calls - {id});
    SafeShrinks(w, over, ix, side);
    if !Refused(w.store.mappings, call.contact, call.customer, ix) {
      var link := Mapping(call.contact, call.customer, true);
      assert ClearOf(w.store, ix, side, w.calls - {id}, call);
      forall k | k in after.calls
        ensures ClearOfLinks(after.store, ix, side, after.calls[k])
        ensures ClearOf(after.store, ix, side, after.calls - {k}, after.calls[k])
      {
        assert ClearOfLinks(over.store, ix, side, over.calls[k]);
        assert ClearOf(over.store, ix, side, over.calls - {k}, over.calls[k]);
        assert !CallClash(w.store, ix, side, call, (w.calls - {id})[k]);
        forall m | m in after.store.mappings
          ensures !LinkClash(after.store, ix, side, after.calls[k], m)
        {
          assert m in w.store.mappings || m == link;
          assert m in w.store.mappings ==> !LinkClash(over.store, ix, side, over.calls[k], m);
        }
        forall other | other in after.calls - {k}
          ensures !CallClash(after.store, ix, side, after.calls[k], after.calls[other])
        {
          assert !CallClash(over.store, ix, side, over.calls[k], (over.calls - {k})[other]);
        }
      }
    }
  }

  lemma InsertKeepsOneLink(w: World, id: CallId, ix: Indexes, side: Side)
    requires Safe(w, ix, side) && OneLink(side, w.store.mappings) && id in w.calls && w.calls[id].Inserting?
    ensures OneLink(side, Advanced(w, id, ix).store.mappings)
  {
    var call := w.calls[id];
    assert ClearOfLinks(w.store, ix, side, call);
    if !Refused(w.store.mappings, call.contact, call.customer, ix) {
      forall m | m in w.store.mappings && m.linked
        ensures !Same(side, m.contactId, m.customerId, call.contact, call.customer)
      {
        assert !LinkClash(w.store, ix, side, call, m);
      }
    }
  }

  lemma StartKeepsSafe(w: World, act: Action, ix: Indexes, side: Side)
    requires Safe(w, ix, side) && IsStart(act) && Guarded(w, act, ix, side)
    ensures Safe(Step(w, act, ix), ix, side)
  {
    var call := Started(w.store, act);
    if act.id !in w.calls && call.Some? {
      assert w.calls - {act.id} == w.calls;
      SafeWith(w, act.id, call.value, Step(w, act, ix), ix, side);
    }
  }

  lemma StepKeepsOneLink(w: World, act: Action, ix: Indexes, side: Side)
    requires Sound(w) && Safe(w, ix, side) && OneLink(side, w.store.mappings) && Guarded(w, act, ix, side)
    ensures Safe(Step(w, act, ix), ix, side) && OneLink(side, Step(w, act, ix).store.mappings)
  {
    var after := Step(w, act, ix);
    match act
    case Advance(id) =>
      if id in w.calls {
        match w.calls[id]
        case Creating(_, _) => CreatingKeepsSafe(w, id, ix, side);
        case Inserting(_, _, _) =>
          InsertKeepsSafe(w, id, ix, side);
          InsertKeepsOneLink(w, id, ix, side);
        case _ => LookKeepsSafe(w, id, ix, side);
      }
    case StartImport(_, _, _) => StartKeepsSafe(w, act, ix, side);
    case StartConfirm(_, _) => StartKeepsSafe(w, act, ix, side);
    case StartMatch(_, _, _) => StartKeepsSafe(w, act, ix, side);
    case _ => SafeShrinks(w, after, ix, side);
  }

  /** Where calls start only clear of each other and of the links there are, no second link is written. */
  lemma {:induction false} GuardedRunKeepsOneLink(w: World, acts: seq<Action>, ix: Indexes, side: Side)
    requires Sound(w) && Safe(w, ix, side) && OneLink(side, w.store.mappings) && GuardedRun(w, acts, ix, side)
    ensures Sound(Run(w, acts, ix)) && Safe(Run(w, acts, ix), ix, side)
    ensures OneLink(side, Run(w, acts, ix).store.mappings)
    decreases |acts|
  {
    if acts != [] {
      StepKeepsSound(w, acts[0], ix);
      StepKeepsOneLink(w, acts[0], ix, side);
      GuardedRunKeepsOneLink(Step(w, acts[0], ix), acts[1..], ix, side);
    }
  }

  // ----- An index makes its side safe -----

  predicate Indexed(ix: Indexes, side: Side) {
    if side.ContactSide? then ix.contact else ix.customer
  }

  lemma {:induction false} IndexedRunIsGuarded(w: World, acts: seq<Action>, ix: Indexes, side: Side)
    requires Indexed(ix, side)
    ensures GuardedRun(w, acts, ix, side)
    decreases |acts|
  {
    if acts != [] { IndexedRunIsGuarded(Step(w, acts[0], ix), acts[1..], ix, side); }
  }

  /** With its unique index a side keeps one link through every interleaving, whatever the other index does. */
  lemma IndexKeepsOneLink(w: World, acts: seq<Action>, ix: Indexes, side: Side)
    requires Sound(w) && OneLink(side, w.store.mappings) && Indexed(ix, side)
    ensures OneLink(side, Run(w, acts, ix).store.mappings)
  {
    IndexedRunIsGuarded(w, acts, ix, side);
    GuardedRunKeepsOneLink(w, acts, ix, side);
  }

  /** One write ends a side's one link exactly when no index refuses it and it shares that side with a link. */
  lemma WriteGivesSecondExactlyWhen(w: World, id: CallId, ix: Indexes)
    requires id in w.calls && w.calls[id].Inserting?
    ensures var mappings, c, x := w.store.mappings, w.calls[id].contact, w.calls[id].customer;
      var after := Step(w, Advance(id), ix).store.mappings;
      && (OneLinkPerContact(mappings) ==>
          (OneLinkPerContact(after) <==>
           !Linked(w.store, c) || ix.contact || (ix.customer && CustomerLinked(w.store, x))))
      && (OneLinkPerCustomer(mappings) ==>
          (OneLinkPerCustomer(after) <==>
           !CustomerLinked(w.store, x) || ix.customer || (ix.contact && Linked(w.store, c))))
  {
    var mappings, c, x := w.store.mappings, w.calls[id].contact, w.calls[id].customer;
    var next := mappings + [Mapping(c, x, true)];
    if m :| m in mappings && m.linked && m.contactId == c {
      var i :| 0 <= i < |mappings| && mappings[i] == m;
      assert next[i] == m && next[|mappings|].contactId == c;
    }
    if m :| m in mappings && m.linked && m.customerId == x {
      var i :| 0 <= i < |mappings| && mappings[i] == m;
      assert next[i] == m && next[|mappings|].customerId == x;
    }
  }

  // ----- A clash can be run into two links -----

  /** Every link but the one at `keep` is taken off. */
  function DetachAll(i: nat, n: nat, keep: int): (acts: seq<Action>)
    requires i <= n
    ensures NoneStart(acts)
    decreases n - i
  {
    if i == n then [] else (if i == keep then [] else [Detach(i)]) + DetachAll(i + 1, n, keep)
  }

  ghost predicate OnlyKept(before: seq<Mapping>, after: seq<Mapping>, i: nat, keep: int) {
    && |after| == |before|
    && forall k :: 0 <= k < |after| ==>
      after[k] == if k < i || k == keep then before[k] else before[k].(linked := false)
  }

  lemma DetachesOne(w: World, i: nat, ix: Indexes)
    requires i < |w.store.mappings|
    ensures var after := Step(w, Detach(i), ix);
      && after.store.mappings == w.store.mappings[i := w.store.mappings[i].(linked := false)]
      && after == w.(store := w.store.(mappings := after.store.mappings))
  {
    assert w.store.mappings[i := w.store.mappings[i]] == w.store.mappings;
  }

  lemma {:induction false} Detached(w: World, i: nat, keep: int, ix: Indexes)
    requires i <= |w.store.mappings|
    ensures var after := Run(w, DetachAll(i, |w.store.mappings|, keep), ix);
      && after == w.(store := w.store.(mappings := after.store.mappings))
      && OnlyKept(w.store.mappings, after.store.mappings, i, keep)
    decreases |w.store.mappings| - i
  {
    var n := |w.store.mappings|;
    if i < n {
      if i == keep {
        assert [] + DetachAll(i + 1, n, keep) == DetachAll(i + 1, n, keep);
        Detached(w, i + 1, keep, ix);
      } else {
        var next := Step(w, Detach(i), ix);
        DetachesOne(w, i, ix);
        RunOne(w, Detach(i), DetachAll(i + 1, n, keep), ix);
        Detached(next, i + 1, keep, ix);
      }
    }
  }

  /** The looks a call has ahead of it. */
  function Looks(call: Call): nat {
    match call
    case Creating(_, _) => 3
    case Matching(_, _) => 2
    case Checking(_, _, _) => 1
    case Inserting(_, _, _) => 0
  }

  /** A call whose customer is free can come to its write. */
  lemma {:induction false} ComesToWrite(w: World, id: CallId, ix: Indexes)
    requires id in w.calls && !w.calls[id].Creating?
    requires w.calls[id].Inserting? || !CustomerLinked(w.store, w.calls[id].customer)
    ensures var after := Run(w, Advances(id, Looks(w.calls[id])), ix);
      && id in after.calls && after.calls[id].Inserting?
      && after.calls[id].contact == w.calls[id].contact && after.calls[id].customer == w.calls[id].customer
      && after == w.(calls := w.calls[id := after.calls[id]])
    decreases Looks(w.calls[id])
  {
    if w.calls[id].Inserting? {
      assert w.calls[id := w.calls[id]] == w.calls;
    } else {
      var next := Step(w, Advance(id), ix);
      RunOne(w, Advance(id), Advances(id, Looks(next.calls[id])), ix);
      ComesToWrite(next, id, ix);
    }
  }

  /** With no further call starting, the side can come to two links. */
  ghost predicate CanGiveTwo(w: World, ix: Indexes, side: Side) {
    exists more :: NoneStart(more) && !OneLink(side, Run(w, more, ix).store.mappings)
  }

  lemma CanGiveTwoBefore(w: World, first: seq<Action>, ix: Indexes, side: Side)
    requires NoneStart(first) && CanGiveTwo(Run(w, first, ix), ix, side)
    ensures CanGiveTwo(w, ix, side)
  {
    var more :| NoneStart(more) && !OneLink(side, Run(Run(w, first, ix), more, ix).store.mappings);
    RunAppend(w, first, more, ix);
    assert NoneStart(first + more);
  }

  lemma CanGiveTwoBy(w: World, act: Action, ix: Indexes, side: Side)
    requires !IsStart(act) && CanGiveTwo(Step(w, act, ix), ix, side)
    ensures CanGiveTwo(w, ix, side)
  {
    RunOne(w, act, [], ix);
    assert [act] + [] == [act];
    CanGiveTwoBefore(w, [act], ix, side);
  }

  lemma TwoAlready(w: World, ix: Indexes, side: Side)
    requires !OneLink(side, w.store.mappings)
    ensures CanGiveTwo(w, ix, side)
  {
    assert NoneStart([]) && Run(w, [], ix) == w;
  }

  lemma TwoLinks(side: Side, mappings: seq<Mapping>, i: nat, j: nat)
    requires i < j < |mappings| && mappings[i].linked && mappings[j].linked
    requires Same(side, mappings[i].contactId, mappings[i].customerId, mappings[j].contactId, mappings[j].customerId)
    ensures !OneLink(side, mappings)
  {
  }

  ghost predicate NoneLinked(mappings: seq<Mapping>, keep: int) {
    forall k :: 0 <= k < |mappings| && k != keep ==> !mappings[k].linked
  }

  /** A write beside the only link left. */
  lemma WritesBeside(w: World, id: CallId, k: nat, ix: Indexes, side: Side)
    requires id in w.calls && w.calls[id].Inserting? && k < |w.store.mappings|
    requires NoneLinked(w.store.mappings, k) && LinkClash(w.store, ix, side, w.calls[id], w.store.mappings[k])
    ensures CanGiveTwo(w, ix, side)
  {
    var next := Step(w, Advance(id), ix);
    assert next.store.mappings == w.store.mappings + [Mapping(w.calls[id].contact, w.calls[id].customer, true)];
    TwoLinks(side, next.store.mappings, k, |w.store.mappings|);
    TwoAlready(next, ix, side);
    CanGiveTwoBy(w, Advance(id), ix, side);
  }

  lemma BothWrite(w: World, i: CallId, j: CallId, ix: Indexes, side: Side)
    requires i in w.calls && j in w.calls && i != j && w.calls[i].Inserting? && w.calls[j].Inserting?
    requires NoneLinked(w.store.mappings, -1) && CallClash(w.store, ix, side, w.calls[i], w.calls[j])
    ensures CanGiveTwo(w, ix, side)
  {
    var next, n := Step(w, Advance(i), ix), |w.store.mappings|;
    assert next.store.mappings == w.store.mappings + [Mapping(w.calls[i].contact, w.calls[i].customer, true)];
    WritesBeside(next, j, n, ix, side);
    CanGiveTwoBy(w, Advance(i), ix, side);
  }

  lemma KnownClashesWithLink(w: World, id: CallId, k: nat, ix: Indexes, side: Side)
    requires id in w.calls && !w.calls[id].Creating? && k < |w.store.mappings|
    requires LinkClash(w.store, ix, side, w.calls[id], w.store.mappings[k])
    ensures CanGiveTwo(w, ix, side)
  {
    var alone := Run(w, DetachAll(0, |w.store.mappings|, k), ix);
    Detached(w, 0, k, ix);
    var looks := Advances(id, Looks(w.calls[id]));
    ComesToWrite(alone, id, ix);
    WritesBeside(Run(alone, looks, ix), id, k, ix, side);
    CanGiveTwoBefore(alone, looks, ix, side);
    CanGiveTwoBefore(w, DetachAll(0, |w.store.mappings|, k), ix, side);
  }

  lemma KnownClashWithEachOther(w: World, i: CallId, j: CallId, ix: Indexes, side: Side)
    requires i in w.calls && j in w.calls && i != j && !w.calls[i].Creating? && !w.calls[j].Creating?
    requires CallClash(w.store, ix, side, w.calls[i], w.calls[j])
    ensures CanGiveTwo(w, ix, side)
  {
    var clear := Run(w, DetachAll(0, |w.store.mappings|, -1), ix);
    Detached(w, 0, -1, ix);
    var first, second := Advances(i, Looks(w.calls[i])), Advances(j, Looks(w.calls[j]));
    ComesToWrite(clear, i, ix);
    var one := Run(clear, first, ix);
    ComesToWrite(one, j, ix);
    BothWrite(Run(one, second, ix), i, j, ix, side);
    CanGiveTwoBefore(one, second, ix, side);
    CanGiveTwoBefore(clear, first, ix, side);
    CanGiveTwoBefore(w, DetachAll(0, |w.store.mappings|, -1), ix, side);
  }

  lemma ClashesWithLink(w: World, id: CallId, k: nat, ix: Indexes, side: Side)
    requires Sound(w) && id in w.calls && k < |w.store.mappings|
    requires LinkClash(w.store, ix, side, w.calls[id], w.store.mappings[k])
    ensures CanGiveTwo(w, ix, side)
  {
    if w.calls[id].Creating? {
      var next := Step(w, Advance(id), ix);
      assert w.store.mappings[k] in w.store.mappings;
      KnownClashesWithLink(next, id, k, ix, side);
      CanGiveTwoBy(w, Advance(id), ix, side);
    } else {
      KnownClashesWithLink(w, id, k, ix, side);
    }
  }

  lemma ClashWithEachOther(w: World, i: CallId, j: CallId, ix: Indexes, side: Side)
    requires Sound(w) && i in w.calls && j in w.calls && i != j
    requires CallClash(w.store, ix, side, w.calls[i], w.calls[j])
    ensures CanGiveTwo(w, ix, side)
    decreases (if w.calls[i].Creating? then 1 else 0) + if w.calls[j].Creating? then 2 else 0
  {
    if w.calls[i].Creating? {
      StepKeepsSound(w, Advance(i), ix);
      ClashWithEachOther(Step(w, Advance(i), ix), i, j, ix, side);
      CanGiveTwoBy(w, Advance(i), ix, side);
    } else if w.calls[j].Creating? {
      ClashWithEachOther(w, j, i, ix, side);
    } else {
      KnownClashWithEachOther(w, i, j, ix, side);
    }
  }

  lemma {:induction false} NoneStartIsGuarded(w: World, acts: seq<Action>, ix: Indexes, side: Side)
    requires NoneStart(acts)
    ensures GuardedRun(w, acts, ix, side)
    decreases |acts|
  {
    if acts != [] {
      assert acts[0] in acts;
      NoneStartIsGuarded(Step(w, acts[0], ix), acts[1..], ix, side);
    }
  }

  lemma UnsafeCanGiveTwo(w: World, ix: Indexes, side: Side)
    requires Sound(w) && !Safe(w, ix, side)
    ensures CanGiveTwo(w, ix, side)
  {
    if id :| id in w.calls && !ClearOfLinks(w.store, ix, side, w.calls[id]) {
      var m :| m in w.store.mappings && LinkClash(w.store, ix, side, w.calls[id], m);
      var k :| 0 <= k < |w.store.mappings| && w.store.mappings[k] == m;
      ClashesWithLink(w, id, k, ix, side);
    } else {
      var id :| id in w.calls && !ClearOf(w.store, ix, side, w.calls - {id}, w.calls[id]);
      var other :| other in w.calls - {id} && CallClash(w.store, ix, side, w.calls[id], (w.calls - {id})[other]);
      ClashWithEachOther(w, id, other, ix, side);
    }
  }

  /**
   The calls under way, however they interleave and whatever is unlinked or created meanwhile, keep a
   side to one link exactly when it has one now and none of them clashes with a link or another.
   */
  lemma KeepsOneLinkExactlyWhen(w: World, ix: Indexes, side: Side)
    requires Sound(w)
    ensures !CanGiveTwo(w, ix, side) <==> OneLink(side, w.store.mappings) && Safe(w, ix, side)
  {
    if !OneLink(side, w.store.mappings) {
      TwoAlready(w, ix, side);
    } else if !Safe(w, ix, side) {
      UnsafeCanGiveTwo(w, ix, side);
    } else {
      forall more | NoneStart(more)
        ensures OneLink(side, Run(w, more, ix).store.mappings)
      {
        NoneStartIsGuarded(w, more, ix, side);
        GuardedRunKeepsOneLink(w, more, ix, side);
      }
    }
  }

  /** The guard is exact: after a start that breaks it the calls under way can come to two links. */
  lemma UnguardedStartCanGiveTwo(w: World, act: Action, ix: Indexes, side: Side)
    requires Sound(w) && !Guarded(w, act, ix, side)
    ensures CanGiveTwo(Step(w, act, ix), ix, side)
  {
    var call, after := Started(w.store, act).value, Step(w, act, ix);
    StepKeepsSound(w, act, ix);
    assert after.calls - {act.id} == w.calls;
    if ClearOfLinks(w.store, ix, side, call) {
      assert !ClearOf(after.store, ix, side, after.calls - {act.id}, after.calls[act.id]);
    } else {
      assert !ClearOfLinks(after.store, ix, side, after.calls[act.id]);
    }
    UnsafeCanGiveTwo(after, ix, side);
  }

  /**
   A double click, two imports of one unlinked contact at once: without the index over contacts they
   can both link it exactly when its customer can be created and has no account number.
   */
  lemma DoubleClickExactlyWhen(store: Store, c: ContactId, dto: ImportContactDto, i: CallId, j: CallId, ix: Indexes)
    requires NamesCustomers(store) && OneLinkPerContact(store.mappings)
    requires c in store.contacts && !Linked(store, c) && i != j
    ensures var details := DetailsFor(store.contacts[c], dto);
      CanGiveTwo(Run(World(store, map[]), [StartImport(i, c, dto), StartImport(j, c, dto)], ix), ix, ContactSide) <==>
      !ix.contact && details.named && details.accountNumber.None?
  {
    var details := DetailsFor(store.contacts[c], dto);
    var call, w := Creating(c, details), World(store, map[]);
    var one := w.(calls := map[i := call]);
    var both := w.(calls := map[i := call, j := call]);
    RunOne(w, StartImport(i, c, dto), [StartImport(j, c, dto)], ix);
    RunOne(one, StartImport(j, c, dto), [], ix);
    assert [StartImport(i, c, dto)] + [StartImport(j, c, dto)] == [StartImport(i, c, dto), StartImport(j, c, dto)];
    assert [StartImport(j, c, dto)] + [] == [StartImport(j, c, dto)];
    assert Run(w, [StartImport(i, c, dto), StartImport(j, c, dto)], ix) == both;
    assert both.calls - {i} == map[j := call] && both.calls - {j} == map[i := call];
    assert details.accountNumber.Some? ==> details.accountNumber.value in NumberOf(details);
    assert CallClash(store, ix, ContactSide, call, call) <==>
      !ix.contact && details.named && details.accountNumber.None?;
    if CallClash(store, ix, ContactSide, call, call) {
      ClashWithEachOther(both, i, j, ix, ContactSide);
    } else {
      assert Safe(both, ix, ContactSide);
      KeepsOneLinkExactlyWhen(both, ix, ContactSide);
    }
  }
}
