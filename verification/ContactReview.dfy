/**
 Contacts fetched from the accounting provider, the suggestions made for them and the mappings that
 link them to customers (apps/api/src/accounting/accounting-contact.service.ts), for one
 organisation.
 */
module ContactReview {
  import opened Wrappers

  type ContactId = nat
  /** Customers (trade relationships) are numbered in the order they were created. */
  type CustomerId = nat
  type AccountNumber = string

  datatype ContactStatus = LINKED | SUGGESTED | CONFLICT | IGNORED | ARCHIVED | NOT_A_CUSTOMER | READY_TO_IMPORT

  /** `named`: its display name is more than white space. */
  datatype Contact = Contact(
    isCustomer: bool,
    isArchived: bool,
    ignored: bool,
    named: bool,
    code: Option<AccountNumber>,
    accountNumber: Option<AccountNumber>)

  /** `linked` until unlinkedAt is set. */
  datatype Mapping = Mapping(contactId: ContactId, customerId: CustomerId, linked: bool)

  datatype Review = Pending | Accepted | Rejected | Superseded

  datatype Suggestion = Suggestion(contactId: ContactId, customerId: CustomerId, review: Review)

  /** `numbers` are the account numbers customers hold. */
  datatype Store = Store(
    contacts: map<ContactId, Contact>,
    mappings: seq<Mapping>,
    suggestions: seq<Suggestion>,
    customers: nat,
    numbers: set<AccountNumber>)

  /** What an action answers. */
  datatype Answer = Done | NotFound | Conflict | BadRequest

  ghost predicate Linked(store: Store, c: ContactId) {
    exists m :: m in store.mappings && m.linked && m.contactId == c
  }

  ghost predicate CustomerLinked(store: Store, customer: CustomerId) {
    exists m :: m in store.mappings && m.linked && m.customerId == customer
  }

  /** Whether contactInclude's `take: 1` finds a link. */
  function FindLink(mappings: seq<Mapping>, c: ContactId): (found: bool)
    ensures found <==> exists m :: m in mappings && m.linked && m.contactId == c
  {
    if mappings == [] then false
    else
      assert mappings == [mappings[0]] + mappings[1..];
      (mappings[0].linked && mappings[0].contactId == c) || FindLink(mappings[1..], c)
  }

  function FindCustomerLink(mappings: seq<Mapping>, customer: CustomerId): (found: bool)
    ensures found <==> exists m :: m in mappings && m.linked && m.customerId == customer
  {
    if mappings == [] then false
    else
      assert mappings == [mappings[0]] + mappings[1..];
      (mappings[0].linked && mappings[0].customerId == customer) || FindCustomerLink(mappings[1..], customer)
  }

  predicate IsPending(suggestions: seq<Suggestion>, i: nat) {
    i < |suggestions| && suggestions[i].review.Pending?
  }

  /** contactInclude's first pending suggestion for a contact, from index `i` on. */
  function FindSuggestion(suggestions: seq<Suggestion>, c: ContactId, i: nat := 0): (found: Option<nat>)
    requires i <= |suggestions|
    ensures found.None? ==>
      forall k :: i <= k < |suggestions| && IsPending(suggestions, k) ==> suggestions[k].contactId != c
    ensures found.Some? ==> IsPending(suggestions, found.value) && suggestions[found.value].contactId == c
    ensures found.Some? ==>
      forall k :: i <= k < found.value && IsPending(suggestions, k) ==> suggestions[k].contactId != c
    decreases |suggestions| - i
  {
    if i == |suggestions| then None
    else if IsPending(suggestions, i) && suggestions[i].contactId == c then Some(i)
    else FindSuggestion(suggestions, c, i + 1)
  }

  function CountPending(suggestions: seq<Suggestion>, customer: CustomerId): nat {
    if suggestions == [] then 0
    else
      (if suggestions[0].review.Pending? && suggestions[0].customerId == customer then 1 else 0)
      + CountPending(suggestions[1..], customer)
  }

  /** findConflictedTradeRelationshipIds: the groups of pending suggestions with more than one row. */
  function ConflictedCustomers(suggestions: seq<Suggestion>): set<CustomerId> {
    set s | s in suggestions && CountPending(suggestions, s.customerId) > 1 :: s.customerId
  }

  /** formatContact's status; `conflicted` is a set of customers fetched beforehand. */
  function Status(store: Store, c: ContactId, conflicted: set<CustomerId>): ContactStatus
    requires c in store.contacts
  {
    var suggestion := FindSuggestion(store.suggestions, c);
    if FindLink(store.mappings, c) then LINKED
    else if suggestion.Some? && store.suggestions[suggestion.value].customerId in conflicted then CONFLICT
    else if suggestion.Some? then SUGGESTED
    else if store.contacts[c].ignored then IGNORED
    else if store.contacts[c].isArchived then ARCHIVED
    else if !store.contacts[c].isCustomer then NOT_A_CUSTOMER
    else READY_TO_IMPORT
  }

  ghost predicate Names(suggestions: seq<Suggestion>, i: int, customer: CustomerId) {
    0 <= i < |suggestions| && suggestions[i].review.Pending? && suggestions[i].customerId == customer
  }

  lemma {:induction false} CountPendingFinds(suggestions: seq<Suggestion>, customer: CustomerId)
    ensures CountPending(suggestions, customer) > 0 <==> exists i :: Names(suggestions, i, customer)
  {
    if suggestions != [] {
      var rest := suggestions[1..];
      var first := Names(suggestions, 0, customer);
      CountPendingFinds(rest, customer);
      assert forall i :: Names(rest, i, customer) <==> i >= 0 && Names(suggestions, i + 1, customer);
      assert forall i :: Names(suggestions, i, customer) && i > 0 ==> Names(rest, i - 1, customer);
    }
  }

  lemma {:induction false} CountPendingFindsTwo(suggestions: seq<Suggestion>, customer: CustomerId)
    ensures CountPending(suggestions, customer) > 1 <==>
      exists i, j :: i < j && Names(suggestions, i, customer) && Names(suggestions, j, customer)
  {
    if suggestions != [] {
      var rest := suggestions[1..];
      var first := Names(suggestions, 0, customer);
      CountPendingFinds(rest, customer);
      CountPendingFindsTwo(rest, customer);
      assert forall i :: Names(rest, i, customer) <==> i >= 0 && Names(suggestions, i + 1, customer);
      assert forall i :: Names(suggestions, i, customer) && i > 0 ==> Names(rest, i - 1, customer);
    }
  }

  /** An unlinked contact is in conflict when its suggested customer is suggested to some other row too. */
  lemma ConflictMeansShared(store: Store, c: ContactId)
    requires c in store.contacts
    ensures Status(store, c, ConflictedCustomers(store.suggestions)).CONFLICT? <==>
      !Linked(store, c)
      && FindSuggestion(store.suggestions, c).Some?
      && exists j :: Names(store.suggestions, j,
                           store.suggestions[FindSuggestion(store.suggestions, c).value].customerId)
                     && j != FindSuggestion(store.suggestions, c).value
  {
    var found := FindSuggestion(store.suggestions, c);
    if found.Some? {
      var i := found.value;
      var customer := store.suggestions[i].customerId;
      CountPendingFindsTwo(store.suggestions, customer);
      assert Names(store.suggestions, i, customer);
      assert store.suggestions[i] in store.suggestions;
    }
  }

  // ----- The badge -----

  function Count<T>(xs: seq<T>, p: T -> bool): nat {
    if xs == [] then 0 else (if p(xs[0]) then 1 else 0) + Count(xs[1..], p)
  }

  /** The first of the two aggregate queries. */
  function HasSuggestion(store: Store, c: ContactId): bool {
    !FindLink(store.mappings, c) && FindSuggestion(store.suggestions, c).Some?
  }

  /** The second. */
  function IsReadyToImport(store: Store, c: ContactId): bool {
    && c in store.contacts
    && store.contacts[c].isCustomer && !store.contacts[c].isArchived && !store.contacts[c].ignored
    && !FindLink(store.mappings, c) && FindSuggestion(store.suggestions, c).None?
  }

  /** countNeedsAttention over the organisation's contact rows. */
  function CountNeedsAttention(store: Store, rows: seq<ContactId>): nat {
    Count(rows, c => HasSuggestion(store, c)) + Count(rows, c => IsReadyToImport(store, c))
  }

  function NeedsAttention(store: Store, c: ContactId, conflicted: set<CustomerId>): bool {
    c in store.contacts && Status(store, c, conflicted) in {SUGGESTED, CONFLICT, READY_TO_IMPORT}
  }

  /** The badge counts exactly the rows the list shows as suggested, in conflict or ready to import. */
  lemma {:induction false} BadgeMatchesTheList(store: Store, rows: seq<ContactId>, conflicted: set<CustomerId>)
    requires forall c :: c in rows ==> c in store.contacts
    ensures CountNeedsAttention(store, rows) == Count(rows, c => NeedsAttention(store, c, conflicted))
  {
    if rows != [] {
      assert rows[0] in rows;
      BadgeMatchesTheList(store, rows[1..], conflicted);
    }
  }

  // ----- The actions -----

  /** What an admin may fill in when importing one contact; a bulk import fills in nothing. */
  datatype ImportContactDto = ImportContactDto(named: Option<bool>, accountNumber: Option<AccountNumber>)

  const NO_DETAILS := ImportContactDto(None, None)

  datatype CustomerDetails = CustomerDetails(named: bool, accountNumber: Option<AccountNumber>)

  function OrElse<T>(first: Option<T>, second: Option<T>): Option<T> {
    if first.Some? then first else second
  }

  function DetailsFor(contact: Contact, dto: ImportContactDto): CustomerDetails {
    CustomerDetails(
      if dto.named.Some? then dto.named.value else contact.named,
      OrElse(dto.accountNumber, OrElse(contact.code, contact.accountNumber)))
  }

  /**
   What a customer is created from: the admin's own number where one is given, else the contact's code,
   else its account number; and the admin's answer about the name where one is given, else the contact's.
   */
  lemma DetailsInOrder(contact: Contact, dto: ImportContactDto)
    ensures var details := DetailsFor(contact, dto);
      && (dto.accountNumber.Some? ==> details.accountNumber == dto.accountNumber)
      && (dto.accountNumber.None? && contact.code.Some? ==> details.accountNumber == contact.code)
      && (dto.accountNumber.None? && contact.code.None? ==> details.accountNumber == contact.accountNumber)
      && (dto.named.Some? ==> details.named == dto.named.value)
      && (dto.named.None? ==> details.named == contact.named)
  {
  }

  function NumberOf(details: CustomerDetails): set<AccountNumber> {
    if details.accountNumber.Some? then {details.accountNumber.value} else {}
  }

  /** A name, and a number no customer holds. */
  predicate Creatable(store: Store, details: CustomerDetails) {
    details.named && NumberOf(details) !! store.numbers
  }

  /**
   AdminCustomersService.create, in a transaction of its own; it rolls back on a blank name and on an
   account number in use, which the unique index on active numbers makes certain.
   */
  function CreateCustomer(store: Store, details: CustomerDetails): (Store, Answer) {
    if !details.named then (store, BadRequest)
    else if !Creatable(store, details) then (store, Conflict)
    else (store.(customers := store.customers + 1, numbers := store.numbers + NumberOf(details)), Done)
  }

  /**
   createMapping: the service checks the customer side. The contact side is left to the unique index on
   (organisation, contact, linked marker); `indexed` says whether the database has it.
   */
  function CreateMapping(store: Store, c: ContactId, customer: CustomerId, indexed: bool): (Store, Answer) {
    if FindCustomerLink(store.mappings, customer) then (store, Conflict)
    else if indexed && FindLink(store.mappings, c) then (store, Conflict)
    else (store.(mappings := store.mappings + [Mapping(c, customer, true)]), Done)
  }

  /** The first half of importAsNewCustomer, up to the customer it creates. */
  function BeginImport(store: Store, c: ContactId, dto: ImportContactDto): (Store, Answer) {
    if c !in store.contacts then (store, NotFound)
    else if FindLink(store.mappings, c) then (store, Conflict)
    else CreateCustomer(store, DetailsFor(store.contacts[c], dto))
  }

  function ImportAsNewCustomer(store: Store, c: ContactId, dto: ImportContactDto, indexed: bool): (Store, Answer) {
    var (created, answer) := BeginImport(store, c, dto);
    if !answer.Done? then (store, answer) else CreateMapping(created, c, store.customers, indexed)
  }

  function ConfirmSuggestion(store: Store, i: nat, indexed: bool): (Store, Answer) {
    if !IsPending(store.suggestions, i) then (store, NotFound)
    else
      var s := store.suggestions[i];
      var (mapped, answer) := CreateMapping(store, s.contactId, s.customerId, indexed);
      if !answer.Done? then (store, answer)
      else (mapped.(suggestions := store.suggestions[i := s.(review := Accepted)]), Done)
  }

  function Settled(s: Suggestion, c: ContactId, review: Review): Suggestion {
    if s.contactId == c && s.review.Pending? then s.(review := review) else s
  }

  /** updateMany on the pending suggestions of a contact. */
  function Settle(suggestions: seq<Suggestion>, c: ContactId, review: Review): (settled: seq<Suggestion>)
    ensures |settled| == |suggestions|
    ensures forall i :: 0 <= i < |settled| ==> settled[i] == Settled(suggestions[i], c, review)
  {
    if suggestions == [] then []
    else [Settled(suggestions[0], c, review)] + Settle(suggestions[1..], c, review)
  }

  function MatchToExistingCustomer(store: Store, c: ContactId, customer: CustomerId, indexed: bool): (Store, Answer) {
    if c !in store.contacts then (store, NotFound)
    else if FindLink(store.mappings, c) then (store, Conflict)
    else if customer >= store.customers then (store, NotFound)
    else
      var (mapped, answer) := CreateMapping(store, c, customer, indexed);
      if !answer.Done? then (store, answer)
      else (mapped.(suggestions := Settle(store.suggestions, c, Superseded)), Done)
  }

  function Ignore(store: Store, c: ContactId): (Store, Answer) {
    if c !in store.contacts then (store, NotFound)
    else
      (store.(contacts := store.contacts[c := store.contacts[c].(ignored := true)],
              suggestions := Settle(store.suggestions, c, Rejected)), Done)
  }

  function Unlink(store: Store, i: nat): (Store, Answer) {
    if i >= |store.mappings| || !store.mappings[i].linked then (store, NotFound)
    else (store.(mappings := store.mappings[i := store.mappings[i].(linked := false)]), Done)
  }

  // ----- One link on either side -----

  ghost predicate OneLinkPerContact(mappings: seq<Mapping>) {
    forall i, j :: 0 <= i < j < |mappings| && mappings[i].linked && mappings[j].linked ==>
      mappings[i].contactId != mappings[j].contactId
  }

  ghost predicate OneLinkPerCustomer(mappings: seq<Mapping>) {
    forall i, j :: 0 <= i < j < |mappings| && mappings[i].linked && mappings[j].linked ==>
      mappings[i].customerId != mappings[j].customerId
  }

  /** Mappings and suggestions name customers that exist. */
  ghost predicate NamesCustomers(store: Store) {
    && (forall m :: m in store.mappings ==> m.customerId < store.customers)
    && (forall s :: s in store.suggestions ==> s.customerId < store.customers)
  }

  ghost predicate ValidStore(store: Store) {
    OneLinkPerCustomer(store.mappings) && NamesCustomers(store)
  }

  lemma CreateMappingKeeps(store: Store, c: ContactId, customer: CustomerId, indexed: bool)
    requires ValidStore(store) && customer < store.customers
    ensures ValidStore(CreateMapping(store, c, customer, indexed).0)
    ensures OneLinkPerContact(store.mappings) ==>
      (OneLinkPerContact(CreateMapping(store, c, customer, indexed).0.mappings) <==>
       indexed || !Linked(store, c) || CustomerLinked(store, customer))
  {
    var next := store.mappings + [Mapping(c, customer, true)];
    if Linked(store, c) {
      var m :| m in store.mappings && m.linked && m.contactId == c;
      var i :| 0 <= i < |store.mappings| && store.mappings[i] == m;
      assert next[i] == m && next[|store.mappings|].contactId == c;
    }
  }

  lemma SettleKeeps(suggestions: seq<Suggestion>, c: ContactId, review: Review, bound: nat)
    requires forall s :: s in suggestions ==> s.customerId < bound
    ensures forall s :: s in Settle(suggestions, c, review) ==> s.customerId < bound
  {
  }

  /** The suggestion's contact is linked already, and only the index stands in the way of a second link. */
  ghost predicate LeansOnIndex(store: Store, i: nat) {
    && IsPending(store.suggestions, i)
    && Linked(store, store.suggestions[i].contactId)
    && !CustomerLinked(store, store.suggestions[i].customerId)
  }

  lemma ConfirmKeepsOneLink(store: Store, i: nat, indexed: bool)
    requires ValidStore(store)
    ensures ValidStore(ConfirmSuggestion(store, i, indexed).0)
    ensures OneLinkPerContact(store.mappings) ==>
      (OneLinkPerContact(ConfirmSuggestion(store, i, indexed).0.mappings) <==> indexed || !LeansOnIndex(store, i))
  {
    if IsPending(store.suggestions, i) {
      CreateMappingKeeps(store, store.suggestions[i].contactId, store.suggestions[i].customerId, indexed);
    }
  }

  lemma ImportKeepsOneLink(store: Store, c: ContactId, dto: ImportContactDto, indexed: bool)
    requires ValidStore(store)
    ensures ValidStore(ImportAsNewCustomer(store, c, dto, indexed).0)
    ensures OneLinkPerContact(store.mappings) ==>
      OneLinkPerContact(ImportAsNewCustomer(store, c, dto, indexed).0.mappings)
  {
    var (created, answer) := BeginImport(store, c, dto);
    if answer.Done? {
      CreateMappingKeeps(created, c, store.customers, indexed);
      assert Linked(created, c) <==> Linked(store, c);
    }
  }

  /** Importing a contact leaves its suggestion pending, so confirming that later needs the index. */
  lemma ConfirmingAfterImportNeedsTheIndex(store: Store, c: ContactId, dto: ImportContactDto, i: nat, indexed: bool)
    requires ValidStore(store) && OneLinkPerContact(store.mappings)
    requires c in store.contacts && !Linked(store, c) && Creatable(store, DetailsFor(store.contacts[c], dto))
    requires IsPending(store.suggestions, i) && store.suggestions[i].contactId == c
    requires !CustomerLinked(store, store.suggestions[i].customerId)
    ensures var imported := ImportAsNewCustomer(store, c, dto, indexed).0;
      OneLinkPerContact(imported.mappings)
      && (OneLinkPerContact(ConfirmSuggestion(imported, i, indexed).0.mappings) <==> indexed)
  {
    var imported := ImportAsNewCustomer(store, c, dto, indexed).0;
    ImportKeepsOneLink(store, c, dto, indexed);
    ConfirmKeepsOneLink(imported, i, indexed);
    assert !FindCustomerLink(store.mappings, store.customers);
    var m := Mapping(c, store.customers, true);
    assert imported.mappings == store.mappings + [m] && m in imported.mappings;
    assert store.suggestions[i] in store.suggestions;
  }

  /** After an action answers Done, this is the status the list shows. */
  lemma StatusAfter(store: Store, c: ContactId, dto: ImportContactDto, conflicted: set<CustomerId>, indexed: bool)
    requires c in store.contacts
    ensures ImportAsNewCustomer(store, c, dto, indexed).1.Done? ==>
      Status(ImportAsNewCustomer(store, c, dto, indexed).0, c, conflicted) == LINKED
    ensures var ignored := Ignore(store, c).0;
      Status(ignored, c, conflicted) == if Linked(store, c) then LINKED else IGNORED
  {
    var imported := ImportAsNewCustomer(store, c, dto, indexed).0;
    if ImportAsNewCustomer(store, c, dto, indexed).1.Done? {
      assert imported.mappings[|imported.mappings| - 1] in imported.mappings;
    }
  }

  /** The pending suggestions of a contact get this review, and no other suggestion changes. */
  ghost predicate Closed(before: seq<Suggestion>, after: seq<Suggestion>, c: ContactId, review: Review) {
    && |after| == |before|
    && forall k :: 0 <= k < |after| ==>
      after[k] == if IsPending(before, k) && before[k].contactId == c then before[k].(review := review) else before[k]
  }

  // ----- The service -----

  /** The action methods, over rows they update in place. */
  class AccountingContactService {
    var contacts: map<ContactId, Contact>
    var mappings: seq<Mapping>
    var suggestions: seq<Suggestion>
    var customers: nat
    var numbers: set<AccountNumber>
    const indexed: bool

    function Contents(): Store
      reads this
    {
      Store(contacts, mappings, suggestions, customers, numbers)
    }

    /** No customer has two links; with the index, no contact has either. */
    ghost predicate Valid()
      reads this
    {
      ValidStore(Contents()) && (indexed ==> OneLinkPerContact(mappings))
    }

    constructor (store: Store, indexed: bool)
      requires ValidStore(store) && (indexed ==> OneLinkPerContact(store.mappings))
      ensures Valid() && Contents() == store && this.indexed == indexed
    {
      contacts, mappings, suggestions, customers, numbers :=
        store.contacts, store.mappings, store.suggestions, store.customers, store.numbers;
      this.indexed := indexed;
    }

    /** Adds a link and nothing else, or refuses: the customer has one, or the index sees the contact's. */
    method Create(c: ContactId, customer: CustomerId) returns (answer: Answer)
      requires Valid() && customer < customers
      modifies this`mappings
      ensures Valid()
      ensures answer.Done? <==> !old(CustomerLinked(Contents(), customer)) && !(indexed && old(Linked(Contents(), c)))
      ensures mappings == if answer.Done? then old(mappings) + [Mapping(c, customer, true)] else old(mappings)
      ensures answer.Done? || answer.Conflict?
    {
      CreateMappingKeeps(Contents(), c, customer, indexed);
      if FindCustomerLink(mappings, customer) || (indexed && FindLink(mappings, c)) { return Conflict; }
      mappings := mappings + [Mapping(c, customer, true)];
      return Done;
    }

    /** The customer is all a worker that dies before mapping it leaves behind. */
    method Begin(c: ContactId, dto: ImportContactDto) returns (answer: Answer)
      requires Valid()
      modifies this`customers, this`numbers
      ensures Valid()
      ensures (Contents(), answer) == BeginImport(old(Contents()), c, dto)
      ensures answer.Done? <==>
        c in contacts && !Linked(Contents(), c) && old(Creatable(Contents(), DetailsFor(contacts[c], dto)))
      ensures customers == old(customers) + if answer.Done? then 1 else 0
    {
      if c !in contacts { return NotFound; }
      if FindLink(mappings, c) { return Conflict; }
      var details := DetailsFor(contacts[c], dto);
      if !details.named { return BadRequest; }
      if !Creatable(Contents(), details) { return Conflict; }
      customers, numbers := customers + 1, numbers + NumberOf(details);
      return Done;
    }

    /** A contact that was not linked gets a customer of its own, and no other row changes. */
    method Import(c: ContactId, dto: ImportContactDto) returns (answer: Answer)
      requires Valid()
      modifies this`mappings, this`customers, this`numbers
      ensures Valid()
      ensures (Contents(), answer) == ImportAsNewCustomer(old(Contents()), c, dto, indexed)
      ensures answer.Done? <==>
        old(c in contacts && !Linked(Contents(), c) && Creatable(Contents(), DetailsFor(contacts[c], dto)))
      ensures answer.Done? ==>
        mappings == old(mappings) + [Mapping(c, old(customers), true)] && customers == old(customers) + 1
      ensures !answer.Done? ==> Contents() == old(Contents())
    {
      var customer := customers;
      answer := Begin(c, dto);
      if answer.Done? { answer := Create(c, customer); }
    }

    /**
     The suggested customer, if free, becomes the contact's, and that suggestion alone is closed. Without
     the index the contact may have had a link already.
     */
    method Confirm(i: nat) returns (answer: Answer)
      requires Valid()
      modifies this`mappings, this`suggestions
      ensures Valid()
      ensures (Contents(), answer) == ConfirmSuggestion(old(Contents()), i, indexed)
      ensures answer.Done? ==>
        CustomerLinked(Contents(), old(suggestions)[i].customerId) && Linked(Contents(), old(suggestions)[i].contactId)
      ensures answer.Done? <==> old(IsPending(suggestions, i) && !CustomerLinked(Contents(), suggestions[i].customerId)
                                    && !(indexed && Linked(Contents(), suggestions[i].contactId)))
      ensures answer.Done? ==> !IsPending(suggestions, i)
      ensures forall k :: 0 <= k < |old(suggestions)| && k != i ==>
        k < |suggestions| && suggestions[k] == old(suggestions)[k]
      ensures !answer.Done? ==> Contents() == old(Contents())
      ensures old(OneLinkPerContact(mappings)) ==>
        (OneLinkPerContact(mappings) <==> indexed || !old(LeansOnIndex(Contents(), i)))
    {
      ghost var before := Contents();
      if IsPending(suggestions, i) {
        var s := suggestions[i];
        assert s in suggestions;
        answer := Create(s.contactId, s.customerId);
        if answer.Done? { suggestions := suggestions[i := s.(review := Accepted)]; }
      } else {
        answer := NotFound;
      }
      assert (Contents(), answer) == ConfirmSuggestion(before, i, indexed);
      ConfirmKeepsOneLink(before, i, indexed);
    }

    /** The contact gets the customer chosen, and none of its suggestions stays pending. */
    method Match(c: ContactId, customer: CustomerId) returns (answer: Answer)
      requires Valid()
      modifies this`mappings, this`suggestions
      ensures Valid()
      ensures old(OneLinkPerContact(mappings)) ==> OneLinkPerContact(mappings)
      ensures answer.Done? <==>
        c in contacts && customer < customers && !old(Linked(Contents(), c))
        && !old(CustomerLinked(Contents(), customer))
      ensures answer.Done? ==> mappings == old(mappings) + [Mapping(c, customer, true)]
      ensures answer.Done? ==>
        Closed(old(suggestions), suggestions, c, Superseded) && FindSuggestion(suggestions, c).None?
      ensures !answer.Done? ==> Contents() == old(Contents())
    {
      if c !in contacts { return NotFound; }
      if FindLink(mappings, c) { return Conflict; }
      if customer >= customers { return NotFound; }
      answer := Create(c, customer);
      if answer.Done? { suggestions := Settle(suggestions, c, Superseded); }
    }

    /** The contact is ignored until it is linked: none of its suggestions stays pending, and no link changes. */
    method Dismiss(c: ContactId) returns (answer: Answer)
      requires Valid()
      modifies this`contacts, this`suggestions
      ensures Valid()
      ensures answer.Done? <==> c in old(contacts)
      ensures contacts.Keys == old(contacts).Keys
      ensures forall d :: d in contacts && d != c ==> contacts[d] == old(contacts)[d]
      ensures answer.Done? ==> forall conflicted ::
        Status(Contents(), c, conflicted) == if Linked(Contents(), c) then LINKED else IGNORED
      ensures answer.Done? ==> Closed(old(suggestions), suggestions, c, Rejected)
      ensures !answer.Done? ==> Contents() == old(Contents())
    {
      SettleKeeps(suggestions, c, Rejected, customers);
      if c !in contacts { return NotFound; }
      contacts := contacts[c := contacts[c].(ignored := true)];
      suggestions := Settle(suggestions, c, Rejected);
      return Done;
    }

    /** One link goes, whichever side it is looked at from; the rows stay. */
    method Detach(i: nat) returns (answer: Answer)
      requires Valid()
      modifies this`mappings
      ensures Valid()
      ensures answer.Done? <==> i < |old(mappings)| && old(mappings)[i].linked
      ensures |mappings| == |old(mappings)|
      ensures forall k :: 0 <= k < |mappings| && k != i ==> mappings[k] == old(mappings)[k]
      ensures i < |mappings| ==> !mappings[i].linked && mappings[i].contactId == old(mappings)[i].contactId
      ensures answer.Done? ==> !CustomerLinked(Contents(), old(mappings)[i].customerId)
      ensures answer.Done? && old(OneLinkPerContact(mappings)) ==> !Linked(Contents(), old(mappings)[i].contactId)
    {
      if i >= |mappings| || !mappings[i].linked { return NotFound; }
      mappings := mappings[i := mappings[i].(linked := false)];
      return Done;
    }
  }
}
