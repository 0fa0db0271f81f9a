/**
 getValidTokenSet as the source writes it: a polling loop, a critical section and statements that
 change connection rows in place (apps/api/src/accounting/accounting-connection.service.ts).

 Between two awaited calls other processes may have done anything the protocol in TokenRefresh
 allows them: `Interference` stands for that, and every method is verified whatever it does.
 */
module ConnectionService {
  import opened Wrappers
  import opened Connections
  import opened TokenRefresh

  const WAITER_DEADLINE_MS := 45_000
  const POLL_BASE_MS := 1_000

  /** The columns the service reads, and the history of each row's credential. */
  datatype Table = Table(rows: Rows, minted: seq<Minted>, stored: map<ConnectionId, seq<Ciphertext>>)

  ghost predicate ValidTable(t: Table) {
    && t.rows.Keys == t.stored.Keys
    && MintedInOrder(t.minted)
    && forall id :: id in t.rows ==> HoldsLast(t.rows[id], t.stored[id], t.minted)
  }

  /** The row's credential ends the chain of those stored in it. */
  ghost predicate HoldsLast(row: Connection, history: seq<Ciphertext>, minted: seq<Minted>) {
    Chain(history, minted) && row.credential == history[|history| - 1] && row.credential < |minted|
  }

  /** What the table may have become while we awaited something. */
  ghost predicate Rely(t: Table, t': Table) {
    && t.rows.Keys <= t'.rows.Keys
    && t.minted <= t'.minted
    && (forall id :: id in t.stored ==> HistoryGrows(t, t', id))
    && (forall id :: id in t.rows ==> RowStays(t, t', id))
  }

  ghost predicate HistoryGrows(t: Table, t': Table, id: ConnectionId) {
    id in t.stored ==> id in t'.stored && t.stored[id] <= t'.stored[id]
  }

  /** A row stays its distributor's, and does not return to CONNECTED once it has left it. */
  ghost predicate RowStays(t: Table, t': Table, id: ConnectionId) {
    id in t.rows ==>
      && id in t'.rows
      && t'.rows[id].distributorId == t.rows[id].distributorId
      && (t.rows[id].status != CONNECTED ==> t'.rows[id].status != CONNECTED)
  }

  function TableOf(s: Shared): Table {
    Table(s.rows, s.minted, s.stored)
  }

  lemma ValidIsValidTable(w: World)
    requires Valid(w) && MintedInOrder(w.shared.minted)
    ensures ValidTable(TableOf(w.shared))
  {
    forall id | id in w.shared.rows
      ensures HoldsLast(w.shared.rows[id], w.shared.stored[id], w.shared.minted)
    {
      assert ValidRow(w.shared, id);
      ChainMinted(w.shared.stored[id], w.shared.minted, |w.shared.stored[id]| - 1);
    }
  }

  lemma StepKeepsRely(w: World, act: Action)
    requires Valid(w)
    ensures Rely(TableOf(w.shared), TableOf(Step(w, act).shared))
  {
    var t, t' := TableOf(w.shared), TableOf(Step(w, act).shared);
    StepKeepsValid(w, act);
    forall id | id in t.rows
      ensures RowStays(t, t', id)
    {
      StepKeepsDistributor(w, act, id);
      if t.rows[id].status != CONNECTED { StepNeverReconnects(w, act, id); }
    }
  }

  /** Whatever callers, callbacks and disconnects do in a run is covered by the rely condition. */
  lemma {:induction false} RunsKeepRely(w: World, acts: seq<Action>)
    requires Valid(w) && MintedInOrder(w.shared.minted)
    ensures Rely(TableOf(w.shared), TableOf(Run(w, acts).shared)) && ValidTable(TableOf(Run(w, acts).shared))
    decreases |acts|
  {
    ValidIsValidTable(w);
    if acts != [] {
      var next := Step(w, acts[0]);
      StepKeepsValid(w, acts[0]);
      StepKeepsMintedInOrder(w, acts[0]);
      StepKeepsRely(w, acts[0]);
      RunsKeepRely(next, acts[1..]);
    }
  }

  /** How the provider answers refreshAccessToken. */
  datatype Answer = Refreshed(tokenSet: TokenSet) | Refused(permanent: bool)

  /** What one pass of the polling loop meets: the lock, the clock and the provider. */
  datatype Round = Round(lock: bool, elapsedMs: nat, jitterMs: nat, answer: Answer)

  /** The refresh of the credential `spent` that a call asked for in one of its rounds. */
  datatype Refresh = Refresh(round: nat, id: ConnectionId, spent: Ciphertext)

  /** The clock at the top of a pass, when those before it ended without an answer. */
  function Clock(start: int, rounds: seq<Round>): int {
    if rounds == [] then start
    else
      var last := rounds[|rounds| - 1];
      Clock(start, rounds[..|rounds| - 1]) + last.elapsedMs + (if last.lock then 0 else POLL_BASE_MS + last.jitterMs)
  }

  /** The passes that did not get the lock: after each the call sleeps. */
  function Waits(rounds: seq<Round>): nat {
    if rounds == [] then 0 else Waits(rounds[..|rounds| - 1]) + if rounds[|rounds| - 1].lock then 0 else 1
  }

  /** The pass does not get the lock, and finds the deadline gone by. */
  predicate GaveUp(start: int, rounds: seq<Round>, i: nat) {
    i < |rounds| && !rounds[i].lock && Clock(start, rounds[..i]) + rounds[i].elapsedMs > start + WAITER_DEADLINE_MS
  }

  /** A write of this process that took effect. */
  datatype Write = StoredCredential(id: ConnectionId, credential: Ciphertext) | MarkedError(id: ConnectionId)

  /** The table after a conditional write took effect. */
  ghost function Swapped(t: Table, id: ConnectionId, next: Ciphertext): Table
    requires id in t.rows && id in t.stored
  {
    t.(rows := t.rows[id := t.rows[id].(credential := next)], stored := t.stored[id := t.stored[id] + [next]])
  }

  lemma SwapHoldsLast(row: Connection, history: seq<Ciphertext>, minted: seq<Minted>, next: Ciphertext)
    requires HoldsLast(row, history, minted) && next < |minted| && minted[next].refreshedFrom == Some(row.credential)
    ensures HoldsLast(row.(credential := next), history + [next], minted) && history <= history + [next]
  {
    ChainAppend(history, minted, next);
  }

  lemma SwapKeepsValid(t: Table, id: ConnectionId, next: Ciphertext)
    requires ValidTable(t) && id in t.rows && next < |t.minted|
    requires t.minted[next].refreshedFrom == Some(t.rows[id].credential)
    ensures ValidTable(Swapped(t, id, next))
  {
    SwapHoldsLast(t.rows[id], t.stored[id], t.minted, next);
  }

  lemma MintingKeepsTable(t: Table, made: Minted)
    requires ValidTable(t) && (made.refreshedFrom.Some? ==> made.refreshedFrom.value < |t.minted|)
    ensures ValidTable(t.(minted := t.minted + [made])) && Rely(t, t.(minted := t.minted + [made]))
  {
    forall id | id in t.rows
      ensures HoldsLast(t.rows[id], t.stored[id], t.minted + [made])
    {
      ChainStays(t.stored[id], t.minted, t.minted + [made]);
    }
  }

  /** A live connection whose credential is the one named: the one a refresh of it would spend. */
  ghost predicate HoldsLive(t: Table, id: ConnectionId, c: Ciphertext) {
    id in t.rows && t.rows[id].status == CONNECTED && t.rows[id].credential == c
  }

  /** The credential was stored in the row at some time. */
  ghost predicate WasStored(t: Table, id: ConnectionId, c: Ciphertext) {
    id in t.rows && id in t.stored && c in t.stored[id] && c < |t.minted|
  }

  /** A credential once replaced, or whose row is no longer CONNECTED, is not current again. */
  lemma SpentStaysSpent(t: Table, t': Table, id: ConnectionId, c: Ciphertext)
    requires ValidTable(t) && ValidTable(t') && HistoryGrows(t, t', id) && RowStays(t, t', id)
    requires WasStored(t, id, c) && !HoldsLive(t, id, c)
    ensures !HoldsLive(t', id, c)
  {
    if t.rows[id].credential != c {
      var history := t'.stored[id];
      assert HoldsLast(t.rows[id], t.stored[id], t.minted) && HoldsLast(t'.rows[id], history, t'.minted);
      var i :| 0 <= i < |t.stored[id]| && t.stored[id][i] == c;
      assert history[i] == c && i < |t.stored[id]| - 1;
      ChainIncreases(history, t'.minted, i, |history| - 1);
    }
  }

  lemma StoredStays(t: Table, t': Table, id: ConnectionId, c: Ciphertext)
    requires ValidTable(t') && t.minted <= t'.minted && id in t'.rows && HistoryGrows(t, t', id)
    requires WasStored(t, id, c)
    ensures WasStored(t', id, c)
  {
    var i :| 0 <= i < |t.stored[id]| && t.stored[id][i] == c;
    assert t'.stored[id][i] == c;
  }

  lemma CurrentWasStored(t: Table, id: ConnectionId)
    requires ValidTable(t) && id in t.rows
    ensures WasStored(t, id, t.rows[id].credential)
  {
    assert HoldsLast(t.rows[id], t.stored[id], t.minted);
  }

  class AccountingConnectionService {
    var rows: Rows
    var minted: seq<Minted>
    ghost var stored: map<ConnectionId, seq<Ciphertext>>
    ghost var writes: seq<Write>

    ghost function Now(): Table reads this {
      Table(rows, minted, stored)
    }

    ghost predicate Intact() reads this {
      ValidTable(Now())
    }

    constructor ()
      ensures Intact() && rows == map[]
    {
      rows, minted, stored, writes := map[], [], map[], [];
    }

    /** Other processes run. This body is one thing they may do; callers may rely on no more. */
    method Interference()
      requires Intact()
      modifies this
      ensures Intact() && Rely(old(Now()), Now()) && writes == old(writes)
    {
    }

    /** What an awaited call leaves sure of one row. */
    method Await(id: ConnectionId)
      requires Intact() && id in rows
      modifies this
      ensures Intact() && id in rows && old(minted) <= minted && writes == old(writes)
      ensures rows[id].distributorId == old(rows)[id].distributorId
      ensures old(rows)[id].status != CONNECTED ==> rows[id].status != CONNECTED
      ensures HistoryGrows(old(Now()), Now(), id) && RowStays(old(Now()), Now(), id)
    {
      Interference();
      assert RowStays(old(Now()), Now(), id);
      assert HistoryGrows(old(Now()), Now(), id);
    }

    /** `c` was stored in the row, which holds it no longer as a live connection: it has been spent. */
    ghost predicate Spent(id: ConnectionId, c: Ciphertext) reads this {
      WasStored(Now(), id, c) && !HoldsLive(Now(), id, c)
    }

    /** Awaiting anything leaves what was stored stored, and what was spent spent. */
    method AwaitStored(id: ConnectionId, ghost c: Ciphertext)
      requires Intact() && id in rows
      modifies this
      ensures Intact() && id in rows && old(minted) <= minted && writes == old(writes)
      ensures rows[id].distributorId == old(rows)[id].distributorId
      ensures old(WasStored(Now(), id, c)) ==> WasStored(Now(), id, c)
      ensures old(Spent(id, c)) ==> Spent(id, c)
    {
      ghost var before := Now();
      Await(id);
      if WasStored(before, id, c) {
        StoredStays(before, Now(), id, c);
        if !HoldsLive(before, id, c) {
          SpentStaysSpent(before, Now(), id, c);
        }
      }
    }

    method Replace(id: ConnectionId, next: Ciphertext)
      requires id in rows && id in stored
      modifies this`rows, this`stored
      ensures Now() == Swapped(old(Now()), id, next)
    {
      rows := rows[id := rows[id].(credential := next)];
      stored := stored[id := stored[id] + [next]];
    }

    /** The conditional credential write of performRefresh. */
    method SwapCredential(id: ConnectionId, expected: Ciphertext, next: Ciphertext) returns (count: nat)
      requires Intact() && next < |minted| && minted[next].refreshedFrom == Some(expected)
      modifies this`rows, this`stored, this`writes
      ensures Intact() && Rely(old(Now()), Now())
      ensures writes == old(writes) + if count == 1 then [StoredCredential(id, next)] else []
      ensures count == if CanSwap(old(rows), id, expected) then 1 else 0
      ensures count == 0 ==> Now() == old(Now())
      ensures count == 1 ==> id in old(rows) && id in old(stored) && Now() == Swapped(old(Now()), id, next)
    {
      if id in rows && rows[id].status == CONNECTED && rows[id].credential == expected {
        SwapKeepsValid(Now(), id, next);
        Replace(id, next);
        writes := writes + [StoredCredential(id, next)];
        return 1;
      }
      count := 0;
    }

    /** Encrypting a token set makes a ciphertext nobody has seen before. */
    method Encrypt(tokenSet: TokenSet, ghost refreshedFrom: Ciphertext, from: Ciphertext) returns (c: Ciphertext)
      requires Intact() && refreshedFrom == from < |minted|
      modifies this`minted
      ensures Intact() && Rely(old(Now()), Now())
      ensures c == |old(minted)| && minted == old(minted) + [Minted(tokenSet, Some(from))]
    {
      MintingKeepsTable(Now(), Minted(tokenSet, Some(from)));
      c := |minted|;
      minted := minted + [Minted(tokenSet, Some(from))];
    }

    /** The ERROR write: a blind update by primary key. */
    method MarkError(id: ConnectionId)
      requires Intact() && id in rows
      modifies this`rows, this`writes
      ensures Intact() && Rely(old(Now()), Now())
      ensures rows == SetStatus(old(rows), id, ERROR) && writes == old(writes) + [MarkedError(id)]
    {
      rows := rows[id := rows[id].(status := ERROR)];
      writes := writes + [MarkedError(id)];
    }

    /** After a lost write: hand back what is stored now, if it still has enough life in it. */
    method ReturnCurrent(id: ConnectionId, now: int) returns (outcome: Outcome)
      requires Intact() && id in rows
      ensures outcome.Return? ==>
                outcome == Return(id, rows[id].credential) && rows[id].status == CONNECTED
                && minted[outcome.credential].tokenSet.expiresAt > now + REFRESH_BUFFER_MS
      ensures !outcome.Return? ==> outcome == Transient
    {
      var current := rows[id];
      if current.status == CONNECTED && Usable(minted[current.credential].tokenSet, now) {
        return Return(id, current.credential);
      }
      outcome := Transient;
    }

    /**
     The provider refreshed: store the new credential if the one it replaces is still current. Won or
     lost, the credential just spent at the provider is not left in place.
     */
    method StoreRefreshed(id: ConnectionId, expected: Ciphertext, tokenSet: TokenSet, now: int)
      returns (outcome: Outcome, won: bool)
      requires Intact() && WasStored(Now(), id, expected)
      modifies this
      ensures Intact() && old(minted) <= minted
      ensures id in rows && rows[id].distributorId == old(rows)[id].distributorId
      ensures outcome.Return? || outcome == Transient
      ensures outcome.Return? ==>
                outcome.id == id && id in rows && rows[id].credential == outcome.credential
                && rows[id].status == CONNECTED
      ensures won ==> outcome.Return?
      ensures won ==>
                |old(minted)| <= outcome.credential < |minted| && HasStored(id, outcome.credential)
                && minted[outcome.credential] == Minted(tokenSet, Some(expected))
      ensures outcome.Return? && !won ==> minted[outcome.credential].tokenSet.expiresAt > now + REFRESH_BUFFER_MS
      ensures Spent(id, expected)
      ensures writes == old(writes) + if won then [StoredCredential(id, outcome.credential)] else []
    {
      var next, count := EncryptAndSwap(id, expected, tokenSet);
      if count == 1 {
        return Return(id, next), true;
      }
      AwaitStored(id, expected);
      outcome := ReturnCurrent(id, now);
      won := false;
    }

    /** The refreshed token set is encrypted and, whatever happened meanwhile, conditionally written. */
    method EncryptAndSwap(id: ConnectionId, expected: Ciphertext, tokenSet: TokenSet)
      returns (next: Ciphertext, count: nat)
      requires Intact() && WasStored(Now(), id, expected)
      modifies this
      ensures Intact() && old(minted) <= minted && Spent(id, expected)
      ensures rows[id].distributorId == old(rows)[id].distributorId
      ensures writes == old(writes) + if count == 1 then [StoredCredential(id, next)] else []
      ensures |old(minted)| <= next < |minted| && minted[next] == Minted(tokenSet, Some(expected))
      ensures count == 1 ==> rows[id].credential == next && rows[id].status == CONNECTED && HasStored(id, next)
    {
      next := Encrypt(tokenSet, expected, expected);
      AwaitStored(id, expected);
      count := SwapStored(id, expected, next);
    }

    /** The conditional write spends the credential it names, unless that was spent already. */
    method SwapStored(id: ConnectionId, expected: Ciphertext, next: Ciphertext) returns (count: nat)
      requires Intact() && WasStored(Now(), id, expected)
      requires expected < next < |minted| && minted[next].refreshedFrom == Some(expected)
      modifies this`rows, this`stored, this`writes
      ensures writes == old(writes) + if count == 1 then [StoredCredential(id, next)] else []
      ensures Intact() && Spent(id, expected) && rows[id].distributorId == old(rows)[id].distributorId
      ensures count == 1 ==>
                id in rows && rows[id].credential == next && rows[id].status == CONNECTED && HasStored(id, next)
      ensures count != 1 ==> Now() == old(Now())
    {
      count := SwapCredential(id, expected, next);
      if count == 1 {
        assert stored[id][|old(stored)[id]|] == next;
        StoredStays(old(Now()), Now(), id, expected);
      }
    }

    /**
     performRefresh. A credential handed back is stored in the row; if it is our own it was minted in
     this call by refreshing exactly the one it replaced, and if the write was lost it is somebody
     else's, still current and with more than five minutes to live. Once the provider has refreshed,
     the credential that was spent is not left in place. A permanent refusal leaves the row in ERROR.
     */
    method PerformRefresh(id: ConnectionId, expected: Ciphertext, answer: Answer, now: int)
      returns (outcome: Outcome, won: bool)
      requires Intact() && WasStored(Now(), id, expected)
      modifies this
      ensures Intact() && old(minted) <= minted
      ensures id in rows && rows[id].distributorId == old(rows)[id].distributorId
      ensures outcome.Return? || outcome == NeedsReconnect || outcome == Transient
      ensures outcome.Return? ==>
                outcome.id == id && id in rows && rows[id].credential == outcome.credential
                && rows[id].status == CONNECTED
      ensures won ==> outcome.Return? && answer.Refreshed?
      ensures won ==>
                |old(minted)| <= outcome.credential < |minted| && HasStored(id, outcome.credential)
                && minted[outcome.credential] == Minted(answer.tokenSet, Some(expected))
      ensures outcome.Return? && !won ==> minted[outcome.credential].tokenSet.expiresAt > now + REFRESH_BUFFER_MS
      ensures answer.Refused? ==> !won && outcome == if answer.permanent then NeedsReconnect else Transient
      ensures outcome == NeedsReconnect ==> answer == Refused(true) && id in rows && rows[id].status == ERROR
      ensures WasStored(Now(), id, expected)
      ensures answer.Refreshed? ==> Spent(id, expected)
      ensures writes == old(writes)
                        + if won then [StoredCredential(id, outcome.credential)]
                          else if answer == Refused(true) then [MarkedError(id)]
                          else []
    {
      AwaitStored(id, expected);
      if answer.Refused? {
        if !answer.permanent {
          return Transient, false;
        }
        AwaitStored(id, expected);
        MarkError(id);
        return NeedsReconnect, false;
      }
      outcome, won := StoreRefreshed(id, expected, answer.tokenSet, now);
    }

    /** The row as re-read under the lock is alive and has at most five minutes left. */
    ghost predicate Due(seen: Connection, now: int) reads this {
      && seen.status == CONNECTED && seen.credential < |minted|
      && minted[seen.credential].tokenSet.expiresAt <= now + REFRESH_BUFFER_MS
    }

    /**
     refreshHoldingLock: re-reads under the lock before deciding anything. `seen` is the row it read:
     one that is not CONNECTED is left to the caller's loop, one with life in it is handed back, and the
     provider is asked for any other.
     */
    method RefreshHoldingLock(id: ConnectionId, answer: Answer, now: int)
      returns (outcome: Outcome, asked: bool, ghost own: bool, ghost seen: Connection)
      requires Intact() && id in rows
      modifies this
      ensures Intact() && old(minted) <= minted
      ensures id in rows && rows[id].distributorId == old(rows)[id].distributorId
      ensures old(rows)[id].status != CONNECTED ==> seen.status != CONNECTED
      ensures WasStored(Now(), id, seen.credential)
      ensures asked <==> Due(seen, now)
      ensures outcome == Retry <==> seen.status != CONNECTED
      ensures outcome == Retry ==> rows[id].status != CONNECTED
      ensures seen.status == CONNECTED && !asked ==> outcome == Return(id, seen.credential)
      ensures asked && answer.Refused? ==> outcome == if answer.permanent then NeedsReconnect else Transient
      ensures asked && answer.Refreshed? ==> Spent(id, seen.credential) && (outcome.Return? || outcome == Transient)
      ensures outcome.Return? ==> outcome.id == id && HasStored(id, outcome.credential)
      ensures outcome == NeedsReconnect ==> answer == Refused(true) && rows[id].status == ERROR
      ensures own ==>
                asked && outcome.Return? && answer.Refreshed? && outcome.credential >= |old(minted)|
                && minted[outcome.credential] == Minted(answer.tokenSet, Some(seen.credential))
      ensures outcome.Return? && !own ==> minted[outcome.credential].tokenSet.expiresAt > now + REFRESH_BUFFER_MS
      ensures outcome != NotConnected
      ensures writes == old(writes)
                        + if own then [StoredCredential(id, outcome.credential)]
                          else if asked && answer == Refused(true) then [MarkedError(id)]
                          else []
    {
      Await(id);
      var locked := rows[id];
      seen := locked;
      CurrentWasStored(Now(), id);
      if locked.status != CONNECTED {
        return Retry, false, false, seen;
      }
      if Usable(minted[locked.credential].tokenSet, now) {
        return Return(id, locked.credential), false, false, seen;
      }
      var won;
      outcome, won := PerformRefresh(id, locked.credential, answer, now);
      asked, own := true, won;
    }

    ghost predicate HasStored(id: ConnectionId, c: Ciphertext) reads this {
      id in stored && c in stored[id] && c < |minted|
    }

    /** findFirst({ distributorId }, orderBy connectedAt desc): any newest row, or none. */
    method FindLatest(distributorId: DistributorId) returns (found: Option<ConnectionId>)
      ensures found.Some? ==> IsLatest(rows, distributorId, found.value)
      ensures found.None? ==> HasNone(rows, distributorId)
    {
      var left := rows.Keys;
      found := None;
      while left != {}
        invariant left <= rows.Keys
        invariant found.Some? ==>
          && found.value in rows && rows[found.value].distributorId == distributorId
          && forall id :: id in rows && id !in left && rows[id].distributorId == distributorId ==>
               rows[id].connectedAt <= rows[found.value].connectedAt
        invariant found.None? ==>
          forall id :: id in rows && id !in left ==> rows[id].distributorId != distributorId
      {
        var id :| id in left;
        if rows[id].distributorId == distributorId
           && (found.None? || rows[found.value].connectedAt < rows[id].connectedAt) {
          found := Some(id);
        }
        left := left - {id};
      }
    }

    /** The read at the top of the polling loop: an answer, or the connection to refresh. */
    method ReadCurrent(distributorId: DistributorId, now: int) returns (answer: Option<Outcome>, id: ConnectionId)
      requires Intact()
      ensures answer.None? ==>
                IsLatest(rows, distributorId, id) && rows[id].status == CONNECTED
                && rows[id].credential < |minted| && !Usable(minted[rows[id].credential].tokenSet, now)
      ensures answer == Some(NotConnected) <==>
                HasNone(rows, distributorId) || (IsLatest(rows, distributorId, id) && rows[id].status == DISCONNECTED)
      ensures answer == Some(NeedsReconnect) ==>
                IsLatest(rows, distributorId, id) && (rows[id].status == ERROR || rows[id].status == REVOKED)
      ensures answer.Some? ==> answer.value == NotConnected || answer.value == NeedsReconnect || answer.value.Return?
      ensures answer.Some? && answer.value.Return? ==>
                && IsLatest(rows, distributorId, id) && rows[id].status == CONNECTED
                && answer.value == Return(id, rows[id].credential) && HasStored(id, rows[id].credential)
                && Usable(minted[rows[id].credential].tokenSet, now)
    {
      var found := FindLatest(distributorId);
      if found.None? {
        return Some(NotConnected), 0;
      }
      id := found.value;
      if rows[id].status == DISCONNECTED {
        return Some(NotConnected), id;
      }
      if rows[id].status == ERROR || rows[id].status == REVOKED {
        return Some(NeedsReconnect), id;
      }
      if Usable(minted[rows[id].credential].tokenSet, now) {
        return Some(Return(id, rows[id].credential)), id;
      }
      answer := None;
    }

    /**
     getValidTokenSet, meeting the given rounds. A token handed back is one a connection of this
     distributor has stored: this call's own refresh, or one that had more than five minutes to live
     when it was read, at `readAt`. `asked` is the refresh this call came to ask for, under the lock;
     once the provider has carried it out, what it spent is not left in place. A transient error means
     that such a refresh was asked for, or that the lock was still taken at the deadline, and a waiter
     never sleeps more than 46 times. `None` means the call was still under way when the rounds ran out.
     */
    method GetValidTokenSet(distributorId: DistributorId, start: int, rounds: seq<Round>)
      returns (outcome: Option<Outcome>, sleeps: nat, ghost asked: Option<Refresh>, ghost own: bool, ghost readAt: int)
      requires Intact()
      modifies this
      ensures Intact()
      ensures outcome.Some? && outcome.value.Return? ==>
        && HasStored(outcome.value.id, outcome.value.credential)
        && outcome.value.id in rows && rows[outcome.value.id].distributorId == distributorId
        && if own then
             && asked.Some? && asked.value.round < |rounds| && rounds[asked.value.round].answer.Refreshed?
             && minted[outcome.value.credential] ==
                  Minted(rounds[asked.value.round].answer.tokenSet, Some(asked.value.spent))
           else readAt >= start && minted[outcome.value.credential].tokenSet.expiresAt > readAt + REFRESH_BUFFER_MS
      ensures asked.Some? ==> Asked(asked.value, distributorId, rounds)
      ensures outcome == Some(Transient) ==>
                (asked.Some? && rounds[asked.value.round].answer != Refused(true))
                || exists i :: GaveUp(start, rounds, i)
      ensures outcome == Some(NeedsReconnect) ==>
                if asked.Some? then rounds[asked.value.round].answer == Refused(true)
                else exists id :: IsLatest(rows, distributorId, id)
                                  && (rows[id].status == ERROR || rows[id].status == REVOKED)
      ensures outcome == Some(NotConnected) ==>
                HasNone(rows, distributorId)
                || exists id :: IsLatest(rows, distributorId, id) && rows[id].status == DISCONNECTED
      ensures outcome != Some(Retry)
      ensures own ==> outcome.Some? && outcome.value.Return? && asked.Some? && asked.value.id == outcome.value.id
      ensures writes == old(writes)
                        + if own then [StoredCredential(asked.value.id, outcome.value.credential)]
                          else if asked.Some? && rounds[asked.value.round].answer == Refused(true)
                          then [MarkedError(asked.value.id)]
                          else []
      ensures sleeps <= WAITER_DEADLINE_MS / POLL_BASE_MS + 1
      ensures outcome.None? ==> sleeps == Waits(rounds)
    {
      var deadline := start + WAITER_DEADLINE_MS;
      var now := start;
      sleeps, asked, own, readAt := 0, None, false, start;
      for i := 0 to |rounds|
        invariant Intact() && asked.None? && !own && writes == old(writes)
        invariant sleeps == Waits(rounds[..i])
        invariant now == Clock(start, rounds[..i]) && now >= start + POLL_BASE_MS * sleeps
        invariant sleeps > 0 ==> POLL_BASE_MS * (sleeps - 1) <= WAITER_DEADLINE_MS
      {
        Interference();
        var answer, id := ReadCurrent(distributorId, now);
        readAt := now;
        if answer.Some? {
          return answer, sleeps, None, false, readAt;
        }
        assert rounds[..i + 1] == rounds[..i] + [rounds[i]];
        now := now + rounds[i].elapsedMs;
        if rounds[i].lock {
          var result, refreshing;
          ghost var mine, seen;
          result, refreshing, mine, seen := RefreshHoldingLock(id, rounds[i].answer, now);
          readAt := now;
          if result != Retry {
            return Some(result), sleeps,
              if refreshing then Some(Refresh(i, id, seen.credential)) else None, mine, readAt;
          }
          continue;
        }
        if now > deadline {
          assert GaveUp(start, rounds, i);
          return Some(Transient), sleeps, None, false, readAt;
        }
        now := now + POLL_BASE_MS + rounds[i].jitterMs;
        sleeps := sleeps + 1;
      }
      assert rounds[..|rounds|] == rounds;
      outcome := None;
    }

    /** A refresh asked for under the lock, for a connection of this distributor. */
    ghost predicate Asked(r: Refresh, distributorId: DistributorId, rounds: seq<Round>) reads this {
      && r.round < |rounds| && rounds[r.round].lock
      && WasStored(Now(), r.id, r.spent) && rows[r.id].distributorId == distributorId
      && (rounds[r.round].answer.Refreshed? ==> Spent(r.id, r.spent))
    }
  }
}
