/**
 Applying one fetch of invoice records: rows looked up by the chunk, facts written one record at a
 time, and an outbox event with every change of status or balance.
 */
module InvoiceSyncProcessor {
  import opened Wrappers
  import opened InvoiceSync

  const LOOKUP_CHUNK := 500

  /** InvoicePaymentStatusChanged, or InvoiceBalanceChanged when the two statuses are the same. */
  datatype Event = Event(invoice: InvoiceId, fromStatus: PaymentStatus, toStatus: PaymentStatus, balance: Balance)

  datatype Counts = Counts(matched: nat, updated: nat, statusChanges: nat)

  type Rows = map<InvoiceId, Row>

  /** The organisation's completed export rows, the outbox and the counts of the fetch so far. */
  datatype Books = Books(rows: Rows, outbox: seq<Event>, counts: Counts)

  predicate BalanceChanged(row: Row, next: Snapshot) {
    row.facts.None? || row.facts.value.balance != next.facts.balance
  }

  /** InvoicePaymentStateService.apply's event, for a row it writes. */
  function EventsFor(invoice: InvoiceId, row: Row, next: Snapshot): seq<Event> {
    var event := Event(invoice, Derive(row.facts), Derive(Some(next.facts)), next.facts.balance);
    if event.fromStatus != event.toStatus || BalanceChanged(row, next) then [event] else []
  }

  /** One record against the rows as its chunk read them. */
  function ApplyRecord(read: Rows, b: Books, record: Record): Books
    requires read.Keys <= b.rows.Keys
  {
    var id, next := record.invoice, record.snapshot;
    if id !in read then b
    else
      var matched := b.counts.(matched := b.counts.matched + 1);
      var row := b.rows[id];
      if !Writes(read[id], row, next) then b.(counts := matched)
      else
        Books(b.rows[id := Written(row, next)], b.outbox + EventsFor(id, row, next),
              matched.(updated := matched.updated + 1,
                       statusChanges := matched.statusChanges
                         + if Derive(row.facts) != Derive(Some(next.facts)) then 1 else 0))
  }

  function ApplyChunk(read: Rows, b: Books, chunk: seq<Record>): (after: Books)
    requires read.Keys <= b.rows.Keys
    ensures after.rows.Keys == b.rows.Keys
    decreases |chunk|
  {
    if chunk == [] then b else ApplyChunk(read, ApplyRecord(read, b, chunk[0]), chunk[1..])
  }

  function Chunk(records: seq<Record>, size: nat): seq<Record> {
    if |records| <= size then records else records[..size]
  }

  function Beyond(records: seq<Record>, size: nat): (rest: seq<Record>)
    ensures size > 0 && records != [] ==> |rest| < |records|
  {
    if |records| <= size then [] else records[size..]
  }

  function ApplyAll(b: Books, records: seq<Record>, size: nat): (after: Books)
    requires size > 0
    ensures after.rows.Keys == b.rows.Keys
    decreases |records|
  {
    if records == [] then b else ApplyAll(ApplyChunk(b.rows, b, Chunk(records, size)), Beyond(records, size), size)
  }

  // ----- Chunks -----

  /** One record after the other, each against the rows as they are then. */
  function ApplyEach(b: Books, records: seq<Record>): (after: Books)
    ensures after.rows.Keys == b.rows.Keys
    decreases |records|
  {
    if records == [] then b else ApplyEach(ApplyRecord(b.rows, b, records[0]), records[1..])
  }

  ghost predicate OnePerInvoice(records: seq<Record>) {
    forall i, j :: 0 <= i < j < |records| ==> records[i].invoice != records[j].invoice
  }

  lemma {:induction false} ChunkIsEach(read: Rows, b: Books, chunk: seq<Record>)
    requires OnePerInvoice(chunk) && read.Keys == b.rows.Keys
    requires forall r :: r in chunk && r.invoice in read ==> read[r.invoice] == b.rows[r.invoice]
    ensures ApplyChunk(read, b, chunk) == ApplyEach(b, chunk)
    decreases |chunk|
  {
    if chunk != [] {
      assert chunk[0] in chunk;
      forall r | r in chunk[1..]
        ensures r in chunk && r.invoice != chunk[0].invoice
      {
        var i :| 0 <= i < |chunk[1..]| && chunk[1..][i] == r;
        assert chunk[i + 1] == r;
      }
      ChunkIsEach(read, ApplyRecord(read, b, chunk[0]), chunk[1..]);
    }
  }

  lemma {:induction false} ApplyEachAppend(b: Books, first: seq<Record>, second: seq<Record>)
    ensures ApplyEach(b, first + second) == ApplyEach(ApplyEach(b, first), second)
    decreases |first|
  {
    if first == [] {
      assert first + second == second;
    } else {
      assert (first + second)[1..] == first[1..] + second;
      ApplyEachAppend(ApplyRecord(b.rows, b, first[0]), first[1..], second);
    }
  }

  /** With one record per invoice the chunk size does not matter, nor that a chunk is read up front. */
  lemma {:induction false} AnyChunking(b: Books, records: seq<Record>, size: nat)
    requires size > 0 && OnePerInvoice(records)
    ensures ApplyAll(b, records, size) == ApplyEach(b, records)
    decreases |records|
  {
    if records != [] {
      var chunk, rest := Chunk(records, size), Beyond(records, size);
      assert chunk + rest == records;
      ChunkIsEach(b.rows, b, chunk);
      AnyChunking(ApplyChunk(b.rows, b, chunk), rest, size);
      ApplyEachAppend(b, chunk, rest);
    }
  }

  /** Two records of one invoice in one chunk can move it back in time; in two chunks they cannot. */
  lemma DuplicatesInAChunkGoBack(a: Facts, b: Facts, early: int, late: int)
    requires a != b && early < late
    ensures var books := Books(map[0 := Row(None, None, None)], [], Counts(0, 0, 0));
      var records := [Record(0, Snapshot(a, Some(late), None)), Record(0, Snapshot(b, Some(early), None))];
      && ApplyAll(books, records, LOOKUP_CHUNK).rows[0].updatedAt == Some(early)
      && ApplyAll(books, records, 1).rows[0].updatedAt == Some(late)
  {
    var books := Books(map[0 := Row(None, None, None)], [], Counts(0, 0, 0));
    var x, y := Record(0, Snapshot(a, Some(late), None)), Record(0, Snapshot(b, Some(early), None));
    var records := [x, y];
    assert records[1..] == [y] && records[..1] == [x] && [y][1..] == [] && [x][1..] == [];
    var once := ApplyRecord(books.rows, books, x);
    var twice := ApplyRecord(books.rows, once, y);
    assert ApplyChunk(books.rows, books, records) == ApplyChunk(books.rows, once, [y]) == twice;
    assert ApplyAll(books, records, LOOKUP_CHUNK) == ApplyAll(twice, [], LOOKUP_CHUNK) == twice;
    assert ApplyChunk(books.rows, books, [x]) == once;
    assert ApplyAll(books, records, 1) == ApplyAll(once, [y], 1);
    assert ApplyChunk(once.rows, once, [y]) == ApplyRecord(once.rows, once, y);
    assert ApplyAll(once, [y], 1) == ApplyAll(ApplyRecord(once.rows, once, y), [], 1);
  }

  // ----- One invoice over many fetches -----

  function SnapshotsOf(records: seq<Record>, id: InvoiceId): seq<Snapshot> {
    if records == [] then []
    else (if records[0].invoice == id then [records[0].snapshot] else []) + SnapshotsOf(records[1..], id)
  }

  lemma {:induction false} EachMergesPerInvoice(b: Books, records: seq<Record>, id: InvoiceId)
    requires id in b.rows
    ensures ApplyEach(b, records).rows[id] == MergeAll(b.rows[id], SnapshotsOf(records, id))
    decreases |records|
  {
    if records != [] {
      EachMergesPerInvoice(ApplyRecord(b.rows, b, records[0]), records[1..], id);
      var rest := SnapshotsOf(records[1..], id);
      if records[0].invoice == id {
        assert ([records[0].snapshot] + rest)[1..] == rest;
      } else {
        assert [] + rest == rest;
      }
    }
  }

  function ApplyFetches(b: Books, fetches: seq<seq<Record>>): (after: Books)
    ensures after.rows.Keys == b.rows.Keys
    decreases |fetches|
  {
    if fetches == [] then b else ApplyFetches(ApplyAll(b, fetches[0], LOOKUP_CHUNK), fetches[1..])
  }

  function AllSnapshotsOf(fetches: seq<seq<Record>>, id: InvoiceId): seq<Snapshot> {
    if fetches == [] then [] else SnapshotsOf(fetches[0], id) + AllSnapshotsOf(fetches[1..], id)
  }

  /** Over any fetches a row is the merge of its own snapshots, in the order they were fetched. */
  lemma {:induction false} FetchesMergePerInvoice(b: Books, fetches: seq<seq<Record>>, id: InvoiceId)
    requires id in b.rows && (forall f :: f in fetches ==> OnePerInvoice(f))
    ensures ApplyFetches(b, fetches).rows[id] == MergeAll(b.rows[id], AllSnapshotsOf(fetches, id))
    decreases |fetches|
  {
    if fetches != [] {
      assert fetches[0] in fetches;
      AnyChunking(b, fetches[0], LOOKUP_CHUNK);
      EachMergesPerInvoice(b, fetches[0], id);
      FetchesMergePerInvoice(ApplyAll(b, fetches[0], LOOKUP_CHUNK), fetches[1..], id);
      MergeAppend(b.rows[id], SnapshotsOf(fetches[0], id), AllSnapshotsOf(fetches[1..], id));
    }
  }

  // ----- What the outbox tells -----

  /** An invoice as a consumer of the events knows it. */
  datatype Known = Known(status: PaymentStatus, balance: Option<Balance>)

  function Told(outbox: seq<Event>, id: InvoiceId): Known
    decreases |outbox|
  {
    if outbox == [] then Known(NOT_SYNCED, None)
    else
      var last := outbox[|outbox| - 1];
      if last.invoice == id then Known(last.toStatus, Some(last.balance)) else Told(outbox[..|outbox| - 1], id)
  }

  function ViewOf(row: Row): Known {
    Known(Derive(row.facts), if row.facts.None? then None else Some(row.facts.value.balance))
  }

  /** Each event starts from the status the one before it, for that invoice, ended in. */
  ghost predicate Contiguous(outbox: seq<Event>)
    decreases |outbox|
  {
    outbox == [] ||
    (var before, last := outbox[..|outbox| - 1], outbox[|outbox| - 1];
     last.fromStatus == Told(before, last.invoice).status && Contiguous(before))
  }

  /** Each event tells a status or a balance that was not known before it. */
  ghost predicate NoRepeats(outbox: seq<Event>)
    decreases |outbox|
  {
    outbox == [] ||
    (var before, last := outbox[..|outbox| - 1], outbox[|outbox| - 1];
     Told(before, last.invoice) != Known(last.toStatus, Some(last.balance)) && NoRepeats(before))
  }

  function StatusEvents(outbox: seq<Event>): nat {
    if outbox == [] then 0
    else
      var last := outbox[|outbox| - 1];
      StatusEvents(outbox[..|outbox| - 1]) + if last.fromStatus != last.toStatus then 1 else 0
  }

  /** The events alone tell every row's payment status and balance, and the count of changes. */
  ghost predicate OutboxTellsAll(b: Books, counted: int) {
    && (forall id :: id in b.rows ==> Told(b.outbox, id) == ViewOf(b.rows[id]))
    && Contiguous(b.outbox) && NoRepeats(b.outbox)
    && StatusEvents(b.outbox) == counted + b.counts.statusChanges
  }

  /** An event that continues from what was told, and changes it, keeps the outbox in order. */
  lemma EventAppends(outbox: seq<Event>, event: Event)
    requires Contiguous(outbox) && NoRepeats(outbox)
    requires event.fromStatus == Told(outbox, event.invoice).status
    requires Told(outbox, event.invoice) != Known(event.toStatus, Some(event.balance))
    ensures Contiguous(outbox + [event]) && NoRepeats(outbox + [event])
    ensures StatusEvents(outbox + [event]) == StatusEvents(outbox) + if event.fromStatus != event.toStatus then 1 else 0
    ensures forall id :: Told(outbox + [event], id) ==
              if id == event.invoice then Known(event.toStatus, Some(event.balance)) else Told(outbox, id)
  {
    var all := outbox + [event];
    assert all[..|all| - 1] == outbox && all[|all| - 1] == event;
  }

  /** The event is left out exactly when the row as written looks to a consumer as it did before. */
  lemma EventsTellTheView(invoice: InvoiceId, row: Row, next: Snapshot)
    ensures EventsFor(invoice, row, next) == [] <==> ViewOf(Written(row, next)) == ViewOf(row)
  {
  }

  lemma ApplyRecordTells(read: Rows, b: Books, record: Record, counted: int)
    requires read.Keys <= b.rows.Keys && OutboxTellsAll(b, counted)
    ensures OutboxTellsAll(ApplyRecord(read, b, record), counted)
  {
    var id, next := record.invoice, record.snapshot;
    if id in read && Writes(read[id], b.rows[id], next) {
      var events := EventsFor(id, b.rows[id], next);
      assert Told(b.outbox, id) == ViewOf(b.rows[id]);
      EventsTellTheView(id, b.rows[id], next);
      if events == [] {
        assert b.outbox + [] == b.outbox;
      } else {
        EventAppends(b.outbox, events[0]);
        assert b.outbox + events == b.outbox + [events[0]];
      }
    }
  }

  lemma {:induction false} ApplyChunkTells(read: Rows, b: Books, chunk: seq<Record>, counted: int)
    requires read.Keys <= b.rows.Keys && OutboxTellsAll(b, counted)
    ensures OutboxTellsAll(ApplyChunk(read, b, chunk), counted)
    decreases |chunk|
  {
    if chunk != [] {
      ApplyRecordTells(read, b, chunk[0], counted);
      ApplyChunkTells(read, ApplyRecord(read, b, chunk[0]), chunk[1..], counted);
    }
  }

  /** Whatever is fetched, in whatever order and however chunked, the outbox keeps telling everything. */
  lemma {:induction false} ApplyAllTells(b: Books, records: seq<Record>, size: nat, counted: int)
    requires size > 0 && OutboxTellsAll(b, counted)
    ensures OutboxTellsAll(ApplyAll(b, records, size), counted)
    decreases |records|
  {
    if records != [] {
      ApplyChunkTells(b.rows, b, Chunk(records, size), counted);
      ApplyAllTells(ApplyChunk(b.rows, b, Chunk(records, size)), Beyond(records, size), size, counted);
    }
  }

  // ----- What the counters count -----

  /** The records of invoices that are ours. */
  function Ours(records: seq<Record>, ids: set<InvoiceId>): seq<Record> {
    if records == [] then []
    else (if records[0].invoice in ids then [records[0]] else []) + Ours(records[1..], ids)
  }

  lemma {:induction false} OursAppend(first: seq<Record>, second: seq<Record>, ids: set<InvoiceId>)
    ensures Ours(first + second, ids) == Ours(first, ids) + Ours(second, ids)
    decreases |first|
  {
    if first == [] {
      assert first + second == second;
    } else {
      assert (first + second)[1..] == first[1..] + second;
      OursAppend(first[1..], second, ids);
    }
  }

  lemma {:induction false} ChunkMatchesOurs(read: Rows, b: Books, chunk: seq<Record>)
    requires read.Keys == b.rows.Keys
    ensures ApplyChunk(read, b, chunk).counts.matched == b.counts.matched + |Ours(chunk, b.rows.Keys)|
    decreases |chunk|
  {
    if chunk != [] {
      ChunkMatchesOurs(read, ApplyRecord(read, b, chunk[0]), chunk[1..]);
    }
  }

  /** However a fetch is chunked, `matched` counts its records of invoices that are ours, repeats included. */
  lemma {:induction false} MatchedCountsOurs(b: Books, records: seq<Record>, size: nat)
    requires size > 0
    ensures ApplyAll(b, records, size).counts.matched == b.counts.matched + |Ours(records, b.rows.Keys)|
    decreases |records|
  {
    if records != [] {
      var chunk, rest := Chunk(records, size), Beyond(records, size);
      assert chunk + rest == records;
      ChunkMatchesOurs(b.rows, b, chunk);
      MatchedCountsOurs(ApplyChunk(b.rows, b, chunk), rest, size);
      OursAppend(chunk, rest, b.rows.Keys);
    }
  }

  // ----- The processor -----

  function Counted(counts: Counts, matched: bool, updated: bool, statusChanged: bool): Counts {
    Counts(counts.matched + (if matched then 1 else 0),
           counts.updated + (if updated then 1 else 0),
           counts.statusChanges + if statusChanged then 1 else 0)
  }

  /** The event says of the invoice what its facts are: its amounts and dates, and whether it is void or paid. */
  ghost predicate Announces(event: Event, id: InvoiceId, facts: Facts) {
    && event.invoice == id && event.balance == facts.balance
    && (event.toStatus == PaymentStatus.VOID <==> facts.state.VOIDED? || facts.state.DELETED?)
    && (event.toStatus == PaymentStatus.PAID <==>
          || facts.state.PAID?
          || (facts.state.AWAITING_PAYMENT? && facts.balance.due <= 0 && facts.balance.total > 0))
  }

  class AccountingInvoiceSyncProcessor {
    var rows: Rows
    var outbox: seq<Event>
    /** The invoices whose rows were written, write by write. */
    ghost var written: seq<InvoiceId>

    constructor (rows: Rows)
      ensures this.rows == rows && outbox == [] && written == []
    {
      this.rows := rows;
      outbox, written := [], [];
    }

    /**
     The transaction of InvoicePaymentStateService.apply, on the row re-read under the lock. The event
     announces VOID exactly for an invoice voided or deleted, and PAID exactly for a paid one.
     */
    method Apply(id: InvoiceId, current: Row, next: Snapshot)
      returns (changed: bool, fromStatus: PaymentStatus, toStatus: PaymentStatus)
      requires id in rows
      modifies this
      ensures changed == (Changed(current, next) && Changed(old(rows)[id], next))
      ensures rows == if changed then old(rows)[id := Written(old(rows)[id], next)] else old(rows)
      ensures outbox == if changed then old(outbox) + EventsFor(id, old(rows)[id], next) else old(outbox)
      ensures changed ==> fromStatus == Derive(old(rows)[id].facts)
      ensures toStatus == Derive(Some(next.facts))
      ensures written == old(written) + if changed then [id] else []
      ensures changed ==> rows[id].facts == Some(next.facts)
      ensures |outbox| == |old(outbox)| + 1 <==>
                changed && (old(rows)[id].facts.None? || fromStatus != toStatus
                            || old(rows)[id].facts.value.balance != next.facts.balance)
      ensures |outbox| == |old(outbox)| + 1 ==> Announces(outbox[|old(outbox)|], id, next.facts)
    {
      toStatus := Derive(Some(next.facts));
      if !Changed(current, next) { return false, Derive(current.facts), toStatus; }
      var row := rows[id];
      fromStatus := Derive(row.facts);
      if !Changed(row, next) { return false, fromStatus, toStatus; }
      rows, written := rows[id := Written(row, next)], written + [id];
      StatusExactlyWhen(Some(next.facts));
      if fromStatus != toStatus || BalanceChanged(row, next) {
        outbox := outbox + [Event(id, fromStatus, toStatus, next.facts.balance)];
      }
      return true, fromStatus, toStatus;
    }

    /** One record of a chunk; the answers are what it adds to the three counters. */
    method ApplyOne(byExternalId: Rows, record: Record, ghost counts: Counts)
      returns (matched: bool, updated: bool, statusChanged: bool)
      requires byExternalId.Keys == rows.Keys
      modifies this
      ensures Books(rows, outbox, Counted(counts, matched, updated, statusChanged))
           == ApplyRecord(byExternalId, Books(old(rows), old(outbox), counts), record)
      ensures |written| == |old(written)| + if updated then 1 else 0
    {
      var id, next := record.invoice, record.snapshot;
      if id !in byExternalId { return false, false, false; }
      var current := byExternalId[id];
      if Before(next.updatedAt, current.updatedAt) { return true, false, false; }
      if !Changed(current, next) { return true, false, false; }
      var changed, fromStatus, toStatus := Apply(id, current, next);
      return true, changed, changed && fromStatus != toStatus;
    }

    /** One chunk: its rows are looked up together, its records applied one by one. */
    method ApplyLookup(chunk: seq<Record>, counts: Counts) returns (matched: nat, updated: nat, statusChanges: nat)
      modifies this
      ensures Books(rows, outbox, Counts(matched, updated, statusChanges))
           == ApplyChunk(old(rows), Books(old(rows), old(outbox), counts), chunk)
      ensures updated - counts.updated == |written| - |old(written)|
    {
      matched, updated, statusChanges := counts.matched, counts.updated, counts.statusChanges;
      var byExternalId := rows;
      ghost var goal := ApplyChunk(rows, Books(rows, outbox, counts), chunk);
      for j := 0 to |chunk|
        invariant rows.Keys == byExternalId.Keys && updated - counts.updated == |written| - |old(written)|
        invariant ApplyChunk(byExternalId, Books(rows, outbox, Counts(matched, updated, statusChanges)),
          chunk[j..]) == goal
      {
        assert chunk[j..][1..] == chunk[j + 1..];
        var isOurs, changed, moved := ApplyOne(byExternalId, chunk[j], Counts(matched, updated, statusChanges));
        if isOurs { matched := matched + 1; }
        if changed { updated := updated + 1; }
        if moved { statusChanges := statusChanges + 1; }
      }
    }

    /** `matched` counts the fetched records that are ours, and `updated` the writes of rows. */
    method ApplyStatuses(records: seq<Record>) returns (matched: nat, updated: nat, statusChanges: nat)
      modifies this
      ensures Books(rows, outbox, Counts(matched, updated, statusChanges))
           == ApplyAll(Books(old(rows), old(outbox), Counts(0, 0, 0)), records, LOOKUP_CHUNK)
      ensures matched == |Ours(records, old(rows).Keys)| && updated == |written| - |old(written)|
    {
      matched, updated, statusChanges := 0, 0, 0;
      ghost var goal := ApplyAll(Books(rows, outbox, Counts(0, 0, 0)), records, LOOKUP_CHUNK);
      MatchedCountsOurs(Books(rows, outbox, Counts(0, 0, 0)), records, LOOKUP_CHUNK);
      var i := 0;
      while i < |records|
        invariant updated == |written| - |old(written)|
        invariant ApplyAll(Books(rows, outbox, Counts(matched, updated, statusChanges)),
          Beyond(records, i), LOOKUP_CHUNK) == goal
      {
        var chunk := Chunk(Beyond(records, i), LOOKUP_CHUNK);
        matched, updated, statusChanges := ApplyLookup(chunk, Counts(matched, updated, statusChanges));
        i := i + LOOKUP_CHUNK;
      }
    }
  }
}
