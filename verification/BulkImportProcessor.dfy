/** The bulk import worker: it claims the job row, works through the selection and keeps the row fresh. */
module BulkImportProcessor {
  import opened Wrappers
  import opened ContactReview
  import opened BulkImport

  const PROCESSING_STALE_MS := 300_000
  const HEARTBEAT_ITEM_INTERVAL := 25
  const HEARTBEAT_TIME_INTERVAL_MS := 5_000

  datatype JobStatus = QUEUED | PROCESSING | COMPLETED | FAILED

  datatype JobRow = JobRow(
    status: JobStatus,
    updatedAt: int,
    totalCount: nat,
    results: seq<ItemResult>,
    imported: nat,
    matched: nat,
    skipped: nat,
    failed: nat)

  function Tally(row: JobRow, totalCount: nat, results: seq<ItemResult>): JobRow {
    row.(totalCount := totalCount, results := results,
         imported := CountOf(results, Imported), matched := CountOf(results, Matched),
         skipped := CountOf(results, Skipped), failed := CountOf(results, Failed))
  }

  /** Each of the four counts is the number of results reported so far with its own outcome. */
  ghost predicate Tallied(row: JobRow) {
    && row.imported == |IndexesOf(row.results, Imported)|
    && row.matched == |IndexesOf(row.results, Matched)|
    && row.skipped == |IndexesOf(row.results, Skipped)|
    && row.failed == |IndexesOf(row.results, Failed)|
  }

  lemma TallyIsTallied(row: JobRow, totalCount: nat, results: seq<ItemResult>)
    ensures Tallied(Tally(row, totalCount, results))
  {
    CountIsOfIndexes(results, Imported);
    CountIsOfIndexes(results, Matched);
    CountIsOfIndexes(results, Skipped);
    CountIsOfIndexes(results, Failed);
  }

  lemma TalliedAddsUp(row: JobRow)
    requires Tallied(row)
    ensures row.imported + row.matched + row.skipped + row.failed == |row.results|
  {
    TallyIsTallied(row, row.totalCount, row.results);
    CountsSum(row.results);
  }

  predicate Claimable(row: JobRow, now: int) {
    !row.status.COMPLETED? && (row.status.PROCESSING? ==> now - row.updatedAt >= PROCESSING_STALE_MS)
  }

  /**
   What an attempt meets: the selection, how long resolving it and each item takes, where the worker
   dies if it does, and whether resolving and the closing notification succeed.
   */
  datatype Attempt = Attempt(
    ids: seq<ContactId>,
    resolving: nat,
    took: nat -> nat,
    death: Option<Death>,
    resolves: bool,
    notified: bool)

  datatype Ending = NotClaimed | Died | Threw | Completed

  /** How long the first `n` items take. */
  function Elapsed(took: nat -> nat, n: nat): nat {
    if n == 0 then 0 else Elapsed(took, n - 1) + took(n - 1)
  }

  /** From the first 25 on, the row shows the beginning of these results, up to the last full 25 at least. */
  predicate ShownIn(row: JobRow, results: seq<ItemResult>) {
    |results| >= HEARTBEAT_ITEM_INTERVAL ==>
      row.results <= results && |results| - |row.results| <= |results| % HEARTBEAT_ITEM_INTERVAL
  }

  class AccountingBulkImportProcessor {
    const service: AccountingContactService
    const honour: bool
    var found: bool
    var row: JobRow
    /** The longest the row was left unwritten while an attempt was alive. */
    ghost var silence: nat

    constructor (service: AccountingContactService, honour: bool, found: bool, now: int)
      ensures this.service == service && this.honour == honour && this.found == found && silence == 0
      ensures row == JobRow(QUEUED, now, 0, [], 0, 0, 0, 0) && Tallied(row)
    {
      this.service, this.honour, this.found := service, honour, found;
      row := JobRow(QUEUED, now, 0, [], 0, 0, 0, 0);
      TallyIsTallied(JobRow(QUEUED, now, 0, [], 0, 0, 0, 0), 0, []);
      silence := 0;
    }

    /** Any write of the row bumps updatedAt. */
    method Write(next: JobRow, now: int)
      modifies this`row, this`silence
      ensures row == next.(updatedAt := now)
      ensures silence == if now - old(row.updatedAt) > old(silence) then now - old(row.updatedAt) else old(silence)
    {
      if now - row.updatedAt > silence { silence := now - row.updatedAt; }
      row := next.(updatedAt := now);
    }

    method Claim(now: int) returns (claimed: bool)
      modifies this`row
      ensures claimed <==> old(found) && Claimable(old(row), now)
      ensures row == if claimed then old(row).(status := PROCESSING, updatedAt := now) else old(row)
    {
      if !found || row.status.COMPLETED? { return false; }
      if row.status.PROCESSING? {
        if now - row.updatedAt < PROCESSING_STALE_MS { return false; }
      }
      row := row.(status := PROCESSING, updatedAt := now);
      return true;
    }

    method ProcessOneContact(id: ContactId, conflicted: set<CustomerId>) returns (result: ItemResult)
      requires service.Valid() && !service.indexed
      modifies service
      ensures service.Valid()
      ensures (service.Contents(), result) == ProcessOne(old(service.Contents()), honour, id, conflicted)
    {
      if id !in service.contacts { return ItemResult(id, Failed, ContactNotFound); }
      var status := Status(service.Contents(), id, conflicted);
      var suggestion := FindSuggestion(service.suggestions, id);
      if status.LINKED? { return ItemResult(id, Skipped, AlreadyLinked); }
      if status.NOT_A_CUSTOMER? || status.ARCHIVED? { return ItemResult(id, Skipped, NotEligible); }
      if honour && (status.SUGGESTED? || status.CONFLICT?) && suggestion.Some? {
        var answer := service.Confirm(suggestion.value);
        return ResultOf(id, Matched, answer);
      }
      var answer := service.Import(id, NO_DETAILS);
      return ResultOf(id, Imported, answer);
    }

    /** `before` is the store when the attempt began, `results` the results so far. */
    method ProcessNext(ghost before: Store, ids: seq<ContactId>, results: seq<ItemResult>, conflicted: set<CustomerId>)
      returns (more: seq<ItemResult>)
      requires service.Valid() && !service.indexed && |results| < |ids|
      requires (service.Contents(), results) == ProcessAll(before, honour, ids[..|results|], {})
      modifies service
      ensures service.Valid()
      ensures |more| == |results| + 1 && results <= more
      ensures (service.Contents(), more) == ProcessAll(before, honour, ids[..|more|], {})
    {
      NextResult(before, service.Contents(), honour, ids, results, conflicted);
      var result := ProcessOneContact(ids[|results|], conflicted);
      more := results + [result];
    }

    method WriteProgress(totalCount: nat, results: seq<ItemResult>, now: int)
      modifies this`row, this`silence
      ensures Tallied(row) && row.results == results && row.totalCount == totalCount
      ensures row.status == old(row.status) && row.updatedAt == now
      ensures silence == old(silence) || silence == now - old(row.updatedAt)
    {
      TallyIsTallied(row, totalCount, results);
      Write(Tally(row, totalCount, results), now);
    }

    /** After each item: the row is written every 25 items, and when it has not been for five seconds. */
    method Heartbeat(totalCount: nat, results: seq<ItemResult>, clock: int, lastHeartbeat: int) returns (last: int)
      requires Tallied(row) && |results| > 0
      modifies this`row, this`silence
      ensures Tallied(row) && row.status == old(row.status)
      ensures clock - last <= HEARTBEAT_TIME_INTERVAL_MS
      ensures (last == lastHeartbeat && row == old(row)) || (last == clock == row.updatedAt && row.results == results)
      ensures silence == old(silence) || silence == clock - old(row.updatedAt)
      ensures old(ShownIn(row, results[..|results| - 1])) ==> ShownIn(row, results)
    {
      if |results| % HEARTBEAT_ITEM_INTERVAL == 0 || clock - lastHeartbeat > HEARTBEAT_TIME_INTERVAL_MS {
        WriteProgress(totalCount, results, clock);
        return clock;
      }
      last := lastHeartbeat;
    }

    /** A closing notification that fails is caught with the rest: the finished row is marked FAILED. */
    method Finalize(totalCount: nat, results: seq<ItemResult>, now: int, notified: bool) returns (ending: Ending)
      modifies this`row, this`silence
      ensures Tallied(row) && row.results == results && row.totalCount == totalCount && row.updatedAt == now
      ensures if notified then ending.Completed? && row.status.COMPLETED? else ending.Threw? && row.status.FAILED?
      ensures silence == old(silence) || silence == now - old(row.updatedAt) || silence == 0
    {
      TallyIsTallied(row, totalCount, results);
      Write(Tally(row, totalCount, results).(status := COMPLETED), now);
      if !notified {
        Write(row.(status := FAILED), now);
        return Threw;
      }
      return Completed;
    }

    /** The worker dies between an item's customer and its mapping, if it gets that far. */
    method DieOn(id: ContactId)
      requires service.Valid()
      modifies service
      ensures service.Valid()
      ensures service.Contents() == Orphaned(old(service.Contents()), honour, id)
    {
      if PlanFor(service.Contents(), honour, id, {}).ImportIt? { var _ := service.Begin(id, NO_DETAILS); }
    }

    /**
     The loop over the selection, begun at `resolved`. Where the worker dies, `results` is what it had in
     memory, of which the row shows a beginning.
     */
    method ProcessSelection(attempt: Attempt, slowest: nat, resolved: int)
      returns (results: seq<ItemResult>, clock: int, died: bool)
      requires service.Valid() && !service.indexed && Tallied(row) && row.status.PROCESSING?
      requires forall k :: attempt.took(k) <= slowest
      requires attempt.death.Some? ==> attempt.death.value.done <= |attempt.ids|
      requires resolved - row.updatedAt <= attempt.resolving
      modifies this`row, this`silence, service
      ensures service.Valid() && Tallied(row) && row.status.PROCESSING?
      ensures died <==> attempt.death.Some?
      ensures died ==> service.Contents() == Aborted(old(service.Contents()), honour, attempt.ids, attempt.death.value)
      ensures died ==>
        results == ProcessAll(old(service.Contents()), honour, attempt.ids[..attempt.death.value.done], {}).1
      ensures !died ==> (service.Contents(), results) == ProcessAll(old(service.Contents()), honour, attempt.ids, {})
      ensures !died ==> clock == resolved + Elapsed(attempt.took, |attempt.ids|)
      ensures clock - row.updatedAt <= HEARTBEAT_TIME_INTERVAL_MS + attempt.resolving
      ensures row.results == old(row.results) || row.results <= results
      ensures ShownIn(row, results)
      ensures silence <= old(silence) || silence <= HEARTBEAT_TIME_INTERVAL_MS + attempt.resolving + slowest
    {
      var ids := attempt.ids;
      var conflicted := ConflictedCustomers(service.suggestions);
      results, clock := [], resolved;
      var lastHeartbeat := clock;
      ghost var before := service.Contents();
      while |results| < |ids|
        invariant |results| <= |ids| && service.Valid() && Tallied(row) && row.status.PROCESSING?
        invariant (service.Contents(), results) == ProcessAll(before, honour, ids[..|results|], {})
        invariant row.results == old(row.results) || row.results <= results
        invariant ShownIn(row, results)
        invariant clock == resolved + Elapsed(attempt.took, |results|)
        invariant attempt.death.Some? ==> |results| <= attempt.death.value.done
        invariant clock - lastHeartbeat <= HEARTBEAT_TIME_INTERVAL_MS
        invariant lastHeartbeat - row.updatedAt <= attempt.resolving
        invariant silence <= old(silence) || silence <= HEARTBEAT_TIME_INTERVAL_MS + attempt.resolving + slowest
      {
        var n := |results|;
        if attempt.death.Some? && n == attempt.death.value.done {
          if attempt.death.value.orphan { DieOn(ids[n]); }
          return results, clock, true;
        }
        ghost var soFar := results;
        results := ProcessNext(before, ids, results, conflicted);
        assert results[..n] == soFar;
        clock := clock + attempt.took(n);
        lastHeartbeat := Heartbeat(|ids|, results, clock, lastHeartbeat);
      }
      assert ids[..|results|] == ids;
      died := attempt.death.Some?;
    }

    /**
     One delivery of the job. `slowest` bounds every item: a live attempt then never leaves the row
     unwritten for longer than the heartbeat interval, the resolving and one item together. Where these
     stay below the stale age no other delivery can claim the job meanwhile. A worker that dies leaves in
     the row the results up to the last full 25 at least.
     */
    method Process(now: int, attempt: Attempt, slowest: nat) returns (ending: Ending)
      requires service.Valid() && !service.indexed && Tallied(row)
      requires forall k :: attempt.took(k) <= slowest
      requires attempt.death.Some? ==> attempt.death.value.done <= |attempt.ids|
      modifies this`row, this`silence, service
      ensures service.Valid() && Tallied(row)
      ensures ending.NotClaimed? <==> !(old(found) && Claimable(old(row), now))
      ensures ending.NotClaimed? ==> row == old(row) && silence == old(silence)
      ensures ending.NotClaimed? || (ending.Threw? && !attempt.resolves) ==>
        service.Contents() == old(service.Contents())
      ensures ending.Died? ==> row.status.PROCESSING? && attempt.death.Some?
      ensures ending.Died? ==>
        service.Contents() == Aborted(old(service.Contents()), honour, attempt.ids, attempt.death.value)
      ensures ending.Died? && row.results != old(row.results) ==>
        row.results <= ProcessAll(old(service.Contents()), honour, attempt.ids[..attempt.death.value.done], {}).1
      ensures ending.Died? ==>
        ShownIn(row, ProcessAll(old(service.Contents()), honour, attempt.ids[..attempt.death.value.done], {}).1)
      ensures ending.Threw? ==> row.status.FAILED? && !(attempt.resolves && attempt.notified)
      ensures ending.Completed? ==> row.status.COMPLETED?
      ensures ending.Completed? || (ending.Threw? && attempt.resolves) ==>
        && row.totalCount == |attempt.ids|
        && row.updatedAt == now + attempt.resolving + Elapsed(attempt.took, |attempt.ids|)
        && (service.Contents(), row.results) == ProcessAll(old(service.Contents()), honour, attempt.ids, {})
      ensures silence <= old(silence) || silence <= HEARTBEAT_TIME_INTERVAL_MS + attempt.resolving + slowest
    {
      var claimed := Claim(now);
      if !claimed { return NotClaimed; }
      var clock := now + attempt.resolving;
      if !attempt.resolves {
        Write(row.(status := FAILED), clock);
        return Threw;
      }
      var results, died;
      results, clock, died := ProcessSelection(attempt, slowest, clock);
      if died { return Died; }
      ending := Finalize(|attempt.ids|, results, clock, attempt.notified);
    }

    /**
     Deliveries one after another, each at its own time and for its own selection: no contact gains a
     second link, and the counts always add up.
     */
    method ProcessDeliveries(times: seq<int>, attempts: seq<Attempt>, slowest: nat)
      requires service.Valid() && !service.indexed && OneLinkPerContact(service.mappings)
      requires Tallied(row) && |times| == |attempts|
      requires forall a :: a in attempts ==> forall k :: a.took(k) <= slowest
      requires forall a :: a in attempts && a.death.Some? ==> a.death.value.done <= |a.ids|
      modifies this`row, this`silence, service
      ensures Tallied(row) && service.Valid() && OneLinkPerContact(service.mappings)
      ensures old(row.status.COMPLETED?) ==> row == old(row) && service.Contents() == old(service.Contents())
    {
      for i := 0 to |attempts|
        invariant Tallied(row) && service.Valid() && OneLinkPerContact(service.mappings)
        invariant old(row.status.COMPLETED?) ==> row == old(row) && service.Contents() == old(service.Contents())
      {
        var attempt := attempts[i];
        assert attempt in attempts;
        ghost var before := service.Contents();
        var ending := Process(times[i], attempt, slowest);
        if ending.Died? {
          AbortedIsValid(before, honour, attempt.ids, attempt.death.value);
        } else {
          ProcessAllLinksOnce(before, honour, attempt.ids, {});
        }
      }
    }
  }

  lemma NextResult(before: Store, atItem: Store, honour: bool, ids: seq<ContactId>, results: seq<ItemResult>,
      conflicted: set<CustomerId>)
    requires |results| < |ids|
    requires (atItem, results) == ProcessAll(before, honour, ids[..|results|], {})
    ensures var n := |results|;
      var (next, result) := ProcessOne(atItem, honour, ids[n], conflicted);
      (next, results + [result]) == ProcessAll(before, honour, ids[..n + 1], {})
  {
    var n := |results|;
    StaleConflictsAreHarmless(atItem, honour, ids[n], conflicted, {});
    ProcessAllAppend(before, honour, ids[..n], [ids[n]], {});
    assert ids[..n] + [ids[n]] == ids[..n + 1];
    var (next, result) := ProcessOne(atItem, honour, ids[n], {});
    assert ProcessAll(next, honour, [ids[n]][1..], {}) == (next, []);
    var none: seq<ItemResult> := [];
    assert [result] + none == [result];
  }
}
