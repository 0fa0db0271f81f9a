/**
 The OAuth connect flow (apps/api/src/accounting/accounting-connection.service.ts): single-use state
 rows, callbacks delivered any number of times and concurrently, and the transaction that retires a
 distributor's connections and adds the new one, against a database whose trigger marks connected rows
 and whose index keeps the marks unique (the add_active_marker_triggers migration).
 */
module OAuthConnect {
  import opened Wrappers
  import opened Connections

  type State = nat
  type Delivery = nat

  datatype StateRow = StateRow(distributorId: DistributorId, expiresAt: int)

  /** A connection row with its connectedDistributorId column. */
  datatype Marked = Marked(row: Connection, connectedDistributorId: Option<DistributorId>)

  type Table = map<ConnectionId, Marked>

  /** Where the delivery of a callback is: the awaited call it makes next. */
  datatype Pc =
    | Looking
    | Deleting(row: StateRow)
    | Exchanging(row: StateRow)
    | Retiring(row: StateRow)
    | Inserting(row: StateRow, retired: set<ConnectionId>)
    | Connected(id: ConnectionId)
    | Rejected

  datatype Handler = Handler(state: State, pc: Pc)

  /**
   `issued` are the states ever handed out, `consumedBy` the delivery that deleted a state's row and
   `exchangedBy` the deliveries that exchanged its code at the provider.
   */
  datatype World = World(
    states: map<State, StateRow>,
    issued: set<State>,
    consumedBy: map<State, Delivery>,
    exchangedBy: map<State, set<Delivery>>,
    table: Table,
    handlers: map<Delivery, Handler>)

  const Fresh := World(map[], {}, map[], map[], map[], map[])

  datatype Action =
    | Issue(state: State, row: StateRow)
    | Deliver(h: Delivery, state: State)
    | Find(h: Delivery)
    | Delete(h: Delivery, now: int, hasCode: bool)
    | Exchange(h: Delivery, succeeds: bool)
    /** The transaction's updateMany picks the rows to retire from what it sees committed. */
    | PickRetired(h: Delivery)
    /** The transaction commits, or the unique index on the connected distributor rolls it back. */
    | Commit(h: Delivery, id: ConnectionId, now: int)
    | Die(h: Delivery)
    | Disconnect(id: ConnectionId)
    | MarkError(id: ConnectionId)
    /** A refresh's conditional write of the credential. */
    | StoreCredential(id: ConnectionId, expected: Ciphertext, next: Ciphertext)

  // ----- The database's side -----

  /** What the trigger computes before every insert and update of a row. */
  function Marker(c: Connection): Option<DistributorId> {
    if c.status == CONNECTED then Some(c.distributorId) else None
  }

  /** The unique index on connectedDistributorId, checked for the one row being written; nulls never clash. */
  predicate IndexAllows(table: Table, id: ConnectionId, marker: Option<DistributorId>) {
    marker.Some? ==> forall other :: other in table && other != id ==> table[other].connectedDistributorId != marker
  }

  /** One row written, or None when the index raises a unique violation. */
  function WriteRow(table: Table, id: ConnectionId, c: Connection): Option<Table> {
    if IndexAllows(table, id, Marker(c)) then Some(table[id := Marked(c, Marker(c))]) else None
  }

  /** An update by primary key, which a violation would leave undone. */
  function Update(table: Table, id: ConnectionId, c: Connection): Table {
    var written := WriteRow(table, id, c);
    if written.Some? then written.value else table
  }

  /** The updateMany that retires rows: the trigger clears each mark, so the index has nothing to object to. */
  function RetireAll(table: Table, ids: set<ConnectionId>): Table {
    map id | id in table ::
      if id in ids then var c := table[id].row.(status := DISCONNECTED); Marked(c, Marker(c)) else table[id]
  }

  ghost predicate MarksFollowRows(table: Table) {
    forall id :: id in table ==> table[id].connectedDistributorId == Marker(table[id].row)
  }

  ghost predicate MarksUnique(table: Table) {
    forall x, y | x in table && y in table ::
      table[x].connectedDistributorId.Some? && table[x].connectedDistributorId == table[y].connectedDistributorId ==>
        x == y
  }

  /** The trigger and the index, each looking at the written row alone, keep marks true and unique. */
  ghost predicate Kept(table: Table) {
    MarksFollowRows(table) && MarksUnique(table)
  }

  lemma WriteKeeps(table: Table, id: ConnectionId, c: Connection)
    requires Kept(table)
    ensures WriteRow(table, id, c).Some? ==> Kept(WriteRow(table, id, c).value)
  {
  }

  lemma RetireKeeps(table: Table, ids: set<ConnectionId>)
    requires Kept(table)
    ensures Kept(RetireAll(table, ids))
  {
  }

  // ----- Deliveries -----

  function Goto(w: World, h: Delivery, pc: Pc): World
    requires h in w.handlers
  {
    w.(handlers := w.handlers[h := w.handlers[h].(pc := pc)])
  }

  function Exchangers(w: World, state: State): set<Delivery> {
    if state in w.exchangedBy then w.exchangedBy[state] else {}
  }

  /** The transaction's statements in their order, or None when the insert fails and all is rolled back. */
  function Transaction(w: World, h: Delivery, id: ConnectionId, now: int): Option<Table>
    requires h in w.handlers && w.handlers[h].pc.Inserting?
  {
    var pc := w.handlers[h].pc;
    WriteRow(RetireAll(w.table, pc.retired), id, Connection(pc.row.distributorId, CONNECTED, 0, now))
  }

  function Step(w: World, act: Action): World {
    match act
    case Issue(state, row) =>
      if state in w.issued then w
      else w.(states := w.states[state := row], issued := w.issued + {state})
    case Deliver(h, state) =>
      if h in w.handlers then w else w.(handlers := w.handlers[h := Handler(state, Looking)])
    case Find(h) =>
      if h !in w.handlers || !w.handlers[h].pc.Looking? then w
      else if w.handlers[h].state in w.states then Goto(w, h, Deleting(w.states[w.handlers[h].state]))
      else Goto(w, h, Rejected)
    case Delete(h, now, hasCode) =>
      if h !in w.handlers || !w.handlers[h].pc.Deleting? then w
      else
        var state := w.handlers[h].state;
        var row := w.handlers[h].pc.row;
        if state !in w.states then Goto(w, h, Rejected)
        else Goto(w, h, if row.expiresAt < now || !hasCode then Rejected else Exchanging(row))
               .(states := w.states - {state}, consumedBy := w.consumedBy[state := h])
    case Exchange(h, succeeds) =>
      if h !in w.handlers || !w.handlers[h].pc.Exchanging? then w
      else
        var state := w.handlers[h].state;
        Goto(w, h, if succeeds then Retiring(w.handlers[h].pc.row) else Rejected)
          .(exchangedBy := w.exchangedBy[state := Exchangers(w, state) + {h}])
    case PickRetired(h) =>
      if h !in w.handlers || !w.handlers[h].pc.Retiring? then w
      else
        var row := w.handlers[h].pc.row;
        Goto(w, h, Inserting(row, set id | id in w.table && Retirable(w.table[id].row, row.distributorId)))
    case Commit(h, id, now) =>
      if h !in w.handlers || !w.handlers[h].pc.Inserting? || id in w.table then w
      else
        var committed := Transaction(w, h, id, now);
        if committed.None? then Goto(w, h, Rejected)
        else Goto(w, h, Connected(id)).(table := committed.value)
    case Die(h) => if h in w.handlers then Goto(w, h, Rejected) else w
    case Disconnect(id) => w.(table := SetStatusOf(w.table, id, DISCONNECTED))
    case MarkError(id) => w.(table := SetStatusOf(w.table, id, ERROR))
    case StoreCredential(id, expected, next) =>
      if id !in w.table || w.table[id].row.status != CONNECTED || w.table[id].row.credential != expected then w
      else w.(table := Update(w.table, id, w.table[id].row.(credential := next)))
  }

  function SetStatusOf(table: Table, id: ConnectionId, status: Status): Table {
    if id in table then Update(table, id, table[id].row.(status := status)) else table
  }

  function Run(w: World, acts: seq<Action>): World
    decreases |acts|
  {
    if acts == [] then w else Run(Step(w, acts[0]), acts[1..])
  }

  /** The delivery has deleted the state row and not exchanged its code yet. */
  predicate MayExchange(k: Handler) {
    k.pc.Exchanging?
  }

  ghost predicate HandlerOwnsState(w: World, h: Delivery) {
    h in w.handlers && MayExchange(w.handlers[h]) ==>
      var state := w.handlers[h].state;
      state in w.consumedBy && w.consumedBy[state] == h && Exchangers(w, state) == {}
  }

  ghost predicate ExchangedByConsumer(w: World, state: State) {
    Exchangers(w, state) != {} ==> state in w.consumedBy && Exchangers(w, state) == {w.consumedBy[state]}
  }

  ghost predicate SingleUse(w: World) {
    && w.states.Keys <= w.issued
    && w.consumedBy.Keys <= w.issued - w.states.Keys
    && (forall h :: HandlerOwnsState(w, h))
    && (forall state :: ExchangedByConsumer(w, state))
  }

  lemma StepKeepsOwner(w: World, act: Action, h: Delivery)
    requires SingleUse(w)
    ensures HandlerOwnsState(Step(w, act), h)
  {
    assert HandlerOwnsState(w, h);
    if act.Delete? || act.Exchange? {
      assert HandlerOwnsState(w, act.h);
      if act.h in w.handlers {
        assert ExchangedByConsumer(w, w.handlers[act.h].state);
      }
    }
  }

  lemma StepKeepsExchanged(w: World, act: Action, state: State)
    requires SingleUse(w)
    ensures ExchangedByConsumer(Step(w, act), state)
  {
    assert ExchangedByConsumer(w, state);
    if act.Exchange? {
      assert HandlerOwnsState(w, act.h);
    }
  }

  lemma StepKeepsSingleUse(w: World, act: Action)
    requires SingleUse(w)
    ensures SingleUse(Step(w, act))
  {
    forall h ensures HandlerOwnsState(Step(w, act), h) {
      StepKeepsOwner(w, act, h);
    }
    forall state ensures ExchangedByConsumer(Step(w, act), state) {
      StepKeepsExchanged(w, act, state);
    }
  }

  lemma {:induction false} RunKeepsSingleUse(w: World, acts: seq<Action>)
    requires SingleUse(w)
    ensures SingleUse(Run(w, acts))
    decreases |acts|
  {
    if acts != [] {
      StepKeepsSingleUse(w, acts[0]);
      RunKeepsSingleUse(Step(w, acts[0]), acts[1..]);
    }
  }

  /** However often and however concurrently its callback is delivered, a state leads to at most one exchange. */
  lemma ExchangedAtMostOnce(acts: seq<Action>, state: State)
    ensures |Exchangers(Run(Fresh, acts), state)| <= 1
  {
    RunKeepsSingleUse(Fresh, acts);
    assert ExchangedByConsumer(Run(Fresh, acts), state);
  }

  /** A state that is used up stays used up: a later delivery is rejected at its first or second call. */
  lemma UsedStateIsRejected(w: World, h: Delivery, state: State, now: int, hasCode: bool)
    requires SingleUse(w) && state in w.consumedBy && h in w.handlers && w.handlers[h].state == state
    requires w.handlers[h].pc.Looking? || w.handlers[h].pc.Deleting?
    ensures var w' := Step(Step(w, Find(h)), Delete(h, now, hasCode));
            w'.handlers[h].pc == Rejected && w'.exchangedBy == w.exchangedBy && w'.table == w.table
  {
  }

  // ----- What a delivery must bring -----

  lemma {:induction false} RunAppend(w: World, acts: seq<Action>, act: Action)
    ensures Run(w, acts + [act]) == Step(Run(w, acts), act)
    decreases |acts|
  {
    if acts == [] {
      assert Run(Step(w, act), []) == Step(w, act);
    } else {
      assert (acts + [act])[1..] == acts[1..] + [act];
      RunAppend(Step(w, acts[0]), acts[1..], act);
    }
  }

  /** The delivery's next call is the delete, and the row it read is still there as it was issued. */
  predicate FindsItsRow(w: World, h: Delivery, state: State, row: StateRow) {
    h in w.handlers && w.handlers[h] == Handler(state, Deleting(row)) && state in w.states && w.states[state] == row
  }

  /** Step `i` of the run is this delivery deleting its state, unexpired by then, with a code in hand. */
  ghost predicate DeletesInTime(acts: seq<Action>, i: nat, h: Delivery, state: State, row: StateRow) {
    && i < |acts| && acts[i].Delete? && acts[i].h == h && acts[i].hasCode && acts[i].now <= row.expiresAt
    && FindsItsRow(Run(Fresh, acts[..i]), h, state, row)
  }

  ghost predicate DeletedInTime(acts: seq<Action>, h: Delivery, state: State, row: StateRow) {
    exists i: nat :: DeletesInTime(acts, i, h, state, row)
  }

  /** Step `i` of the run is the provider answering this delivery's exchange with a token. */
  ghost predicate ExchangesAt(acts: seq<Action>, i: nat, h: Delivery) {
    && i < |acts| && acts[i] == Exchange(h, true)
    && h in Run(Fresh, acts[..i]).handlers && Run(Fresh, acts[..i]).handlers[h].pc.Exchanging?
  }

  /** The delivery deleted its state in time, with a code, and the provider exchanged the code. */
  ghost predicate Earned(acts: seq<Action>, h: Delivery, state: State, row: StateRow) {
    DeletedInTime(acts, h, state, row) && exists i: nat :: ExchangesAt(acts, i, h)
  }

  ghost predicate HandlerEarned(acts: seq<Action>, w: World, h: Delivery)
    requires h in w.handlers
  {
    var state := w.handlers[h].state;
    match w.handlers[h].pc
    case Deleting(row) => state in w.issued && (state in w.states ==> w.states[state] == row)
    case Exchanging(row) => DeletedInTime(acts, h, state, row)
    case Retiring(row) => Earned(acts, h, state, row)
    case Inserting(row, _) => Earned(acts, h, state, row)
    case _ => true
  }

  ghost predicate ExchangeEarned(acts: seq<Action>, h: Delivery, state: State) {
    exists row :: DeletedInTime(acts, h, state, row)
  }

  ghost predicate RowEarned(acts: seq<Action>, distributorId: DistributorId) {
    exists h, state, row :: Earned(acts, h, state, row) && row.distributorId == distributorId
  }

  ghost predicate AllEarned(acts: seq<Action>, w: World) {
    && w.states.Keys <= w.issued
    && (forall h :: h in w.handlers ==> HandlerEarned(acts, w, h))
    && (forall state, h :: h in Exchangers(w, state) ==> ExchangeEarned(acts, h, state))
    && (forall id :: id in w.table ==> RowEarned(acts, w.table[id].row.distributorId))
  }

  lemma DeletedInTimeStays(acts: seq<Action>, act: Action, h: Delivery, state: State, row: StateRow)
    requires DeletedInTime(acts, h, state, row)
    ensures DeletedInTime(acts + [act], h, state, row)
  {
    var i: nat :| DeletesInTime(acts, i, h, state, row);
    assert (acts + [act])[..i] == acts[..i];
    assert DeletesInTime(acts + [act], i, h, state, row);
  }

  lemma EarnedStays(acts: seq<Action>, act: Action, h: Delivery, state: State, row: StateRow)
    requires Earned(acts, h, state, row)
    ensures Earned(acts + [act], h, state, row)
  {
    DeletedInTimeStays(acts, act, h, state, row);
    var i: nat :| ExchangesAt(acts, i, h);
    assert (acts + [act])[..i] == acts[..i];
    assert ExchangesAt(acts + [act], i, h);
  }

  lemma RowEarnedStays(acts: seq<Action>, act: Action, distributorId: DistributorId)
    requires RowEarned(acts, distributorId)
    ensures RowEarned(acts + [act], distributorId)
  {
    var h, state, row :| Earned(acts, h, state, row) && row.distributorId == distributorId;
    EarnedStays(acts, act, h, state, row);
  }

  /** A step of the delivery itself, as opposed to what other deliveries and refreshes do. */
  predicate IsStepOf(act: Action, h: Delivery) {
    (act.Find? || act.Delete? || act.Exchange? || act.PickRetired? || act.Commit? || act.Die?) && act.h == h
  }

  /** Where a delivery can be after a step, and what took it there. */
  lemma HandlerMoves(w: World, act: Action, h: Delivery)
    requires h in w.handlers && w.states.Keys <= w.issued
    ensures h in Step(w, act).handlers && Step(w, act).handlers[h].state == w.handlers[h].state
    ensures var state, pc, pc' := w.handlers[h].state, w.handlers[h].pc, Step(w, act).handlers[h].pc;
      pc' == pc || match pc'
        case Looking => false
        case Deleting(row) => state in w.states && w.states[state] == row
        case Exchanging(row) =>
          && pc == Deleting(row) && state in w.states
          && act.Delete? && act.h == h && act.hasCode && act.now <= row.expiresAt
        case Retiring(row) => pc == Exchanging(row) && act == Exchange(h, true)
        case Inserting(row, _) => pc == Retiring(row)
        case _ => true
  {
    if !IsStepOf(act, h) {
      OthersStayPut(w, act, h);
    }
  }

  lemma OthersStayPut(w: World, act: Action, h: Delivery)
    requires h in w.handlers && !IsStepOf(act, h)
    ensures h in Step(w, act).handlers && Step(w, act).handlers[h] == w.handlers[h]
  {
  }

  lemma StatesStay(w: World, act: Action, state: State)
    requires w.states.Keys <= w.issued && state in w.issued
    ensures state in Step(w, act).issued
    ensures state in Step(w, act).states ==> state in w.states && Step(w, act).states[state] == w.states[state]
  {
  }

  lemma HandlerStaysEarned(acts: seq<Action>, act: Action, h: Delivery)
    requires AllEarned(acts, Run(Fresh, acts)) && h in Run(Fresh, acts).handlers
    ensures h in Step(Run(Fresh, acts), act).handlers
    ensures HandlerEarned(acts + [act], Step(Run(Fresh, acts), act), h)
  {
    var w := Run(Fresh, acts);
    var w' := Step(w, act);
    var state, pc := w.handlers[h].state, w.handlers[h].pc;
    assert HandlerEarned(acts, w, h);
    HandlerMoves(w, act, h);
    match w'.handlers[h].pc
    case Deleting(row) => StatesStay(w, act, state);
    case Exchanging(row) => ExchangingEarned(acts, act, h);
    case Retiring(row) => RetiringEarned(acts, act, h);
    case Inserting(row, _) => EarnedStays(acts, act, h, state, row);
    case _ =>
  }

  lemma ExchangingEarned(acts: seq<Action>, act: Action, h: Delivery)
    requires var w := Run(Fresh, acts);
             w.states.Keys <= w.issued && h in w.handlers && HandlerEarned(acts, w, h)
    requires Step(Run(Fresh, acts), act).handlers[h].pc.Exchanging?
    ensures HandlerEarned(acts + [act], Step(Run(Fresh, acts), act), h)
  {
    var w := Run(Fresh, acts);
    var state, row := w.handlers[h].state, Step(w, act).handlers[h].pc.row;
    HandlerMoves(w, act, h);
    if w.handlers[h].pc == Exchanging(row) {
      DeletedInTimeStays(acts, act, h, state, row);
    } else {
      assert (acts + [act])[..|acts|] == acts;
      assert DeletesInTime(acts + [act], |acts|, h, state, row);
    }
  }

  lemma RetiringEarned(acts: seq<Action>, act: Action, h: Delivery)
    requires var w := Run(Fresh, acts);
             w.states.Keys <= w.issued && h in w.handlers && HandlerEarned(acts, w, h)
    requires Step(Run(Fresh, acts), act).handlers[h].pc.Retiring?
    ensures HandlerEarned(acts + [act], Step(Run(Fresh, acts), act), h)
  {
    var w := Run(Fresh, acts);
    var state, row := w.handlers[h].state, Step(w, act).handlers[h].pc.row;
    HandlerMoves(w, act, h);
    if w.handlers[h].pc == Retiring(row) {
      EarnedStays(acts, act, h, state, row);
    } else {
      DeletedInTimeStays(acts, act, h, state, row);
      assert (acts + [act])[..|acts|] == acts;
      assert ExchangesAt(acts + [act], |acts|, h);
    }
  }

  /** A row keeps its distributor, and a new one is the commit of a delivery in its transaction. */
  lemma RowMoves(w: World, act: Action, id: ConnectionId)
    requires id in Step(w, act).table
    ensures if id in w.table then Step(w, act).table[id].row.distributorId == w.table[id].row.distributorId
            else act.Commit? && act.h in w.handlers && w.handlers[act.h].pc.Inserting?
                 && Step(w, act).table[id].row.distributorId == w.handlers[act.h].pc.row.distributorId
  {
  }

  lemma ExchangeStaysEarned(acts: seq<Action>, act: Action, h: Delivery, state: State)
    requires AllEarned(acts, Run(Fresh, acts)) && h in Exchangers(Step(Run(Fresh, acts), act), state)
    ensures ExchangeEarned(acts + [act], h, state)
  {
    var w := Run(Fresh, acts);
    if h in Exchangers(w, state) {
      assert ExchangeEarned(acts, h, state);
      var row :| DeletedInTime(acts, h, state, row);
      DeletedInTimeStays(acts, act, h, state, row);
    } else {
      assert HandlerEarned(acts, w, h);
      DeletedInTimeStays(acts, act, h, state, w.handlers[h].pc.row);
    }
  }

  lemma RowStaysEarned(acts: seq<Action>, act: Action, id: ConnectionId)
    requires AllEarned(acts, Run(Fresh, acts)) && id in Step(Run(Fresh, acts), act).table
    ensures RowEarned(acts + [act], Step(Run(Fresh, acts), act).table[id].row.distributorId)
  {
    var w := Run(Fresh, acts);
    RowMoves(w, act, id);
    if id in w.table {
      assert RowEarned(acts, w.table[id].row.distributorId);
      RowEarnedStays(acts, act, w.table[id].row.distributorId);
    } else {
      assert HandlerEarned(acts, w, act.h);
      EarnedStays(acts, act, act.h, w.handlers[act.h].state, w.handlers[act.h].pc.row);
    }
  }

  lemma NewHandlerLooks(w: World, act: Action, h: Delivery)
    requires h in Step(w, act).handlers && h !in w.handlers
    ensures Step(w, act).handlers[h].pc == Looking
  {
  }

  lemma StepKeepsIssued(w: World, act: Action)
    requires w.states.Keys <= w.issued
    ensures Step(w, act).states.Keys <= Step(w, act).issued
  {
  }

  lemma StepKeepsEarned(acts: seq<Action>, act: Action)
    requires AllEarned(acts, Run(Fresh, acts))
    ensures AllEarned(acts + [act], Step(Run(Fresh, acts), act))
  {
    var w := Run(Fresh, acts);
    StepKeepsIssued(w, act);
    forall h | h in Step(w, act).handlers
      ensures HandlerEarned(acts + [act], Step(w, act), h)
    {
      if h in w.handlers { HandlerStaysEarned(acts, act, h); } else { NewHandlerLooks(w, act, h); }
    }
    forall state, h | h in Exchangers(Step(w, act), state)
      ensures ExchangeEarned(acts + [act], h, state)
    {
      ExchangeStaysEarned(acts, act, h, state);
    }
    forall id | id in Step(w, act).table
      ensures RowEarned(acts + [act], Step(w, act).table[id].row.distributorId)
    {
      RowStaysEarned(acts, act, id);
    }
  }

  lemma {:induction false} RunKeepsEarned(acts: seq<Action>)
    ensures AllEarned(acts, Run(Fresh, acts))
    decreases |acts|
  {
    if acts != [] {
      var before, last := acts[..|acts| - 1], acts[|acts| - 1];
      assert acts == before + [last];
      RunKeepsEarned(before);
      RunAppend(Fresh, before, last);
      StepKeepsEarned(before, last);
    }
  }

  /**
   However callbacks interleave, a delivery that exchanged a code did so for a state whose row it
   deleted itself, at an instant the row had not expired, and with a code.
   */
  lemma ExchangesOnlyUnexpired(acts: seq<Action>, h: Delivery, state: State)
    requires h in Exchangers(Run(Fresh, acts), state)
    ensures exists row :: DeletedInTime(acts, h, state, row)
  {
    RunKeepsEarned(acts);
    assert ExchangeEarned(acts, h, state);
  }

  /**
   Every connection row there ever is belongs to a distributor one of whose states was deleted in time,
   with a code the provider then exchanged. So no expired, refused or failed callback adds one.
   */
  lemma RowsComeFromExchanges(acts: seq<Action>, id: ConnectionId)
    requires id in Run(Fresh, acts).table
    ensures RowEarned(acts, Run(Fresh, acts).table[id].row.distributorId)
  {
    RunKeepsEarned(acts);
  }

  /**
   The delete decides: a delivery goes on to the exchange if and only if its state's row is still there,
   not expired, and the callback came with a code. Found, the state is used up whichever way it goes.
   */
  lemma ExchangesExactlyWhen(w: World, h: Delivery, row: StateRow, now: int, hasCode: bool)
    requires h in w.handlers && w.handlers[h].pc == Deleting(row)
    ensures var state := w.handlers[h].state;
            var w' := Step(w, Delete(h, now, hasCode));
            && (w'.handlers[h].pc == Exchanging(row) <==> state in w.states && now <= row.expiresAt && hasCode)
            && (w'.handlers[h].pc == Exchanging(row) || w'.handlers[h].pc == Rejected)
            && state !in w'.states && (state in w.states ==> w'.consumedBy == w.consumedBy[state := h])
            && w'.table == w.table && w'.exchangedBy == w.exchangedBy
  {
  }

  lemma RejectedStays(w: World, act: Action, h: Delivery)
    requires h in w.handlers && w.handlers[h].pc == Rejected
    ensures h in Step(w, act).handlers && Step(w, act).handlers[h].pc == Rejected
    ensures IsStepOf(act, h) ==> Step(w, act) == w
  {
    if act == Die(h) {
      assert w.handlers[h := w.handlers[h].(pc := Rejected)] == w.handlers;
    }
  }

  /** A rejected delivery is over: whatever happens later, no step of its own does anything. */
  lemma {:induction false} RejectedForGood(w: World, acts: seq<Action>, h: Delivery, act: Action)
    requires h in w.handlers && w.handlers[h].pc == Rejected && IsStepOf(act, h)
    ensures Step(Run(w, acts), act) == Run(w, acts)
    decreases |acts|
  {
    if acts == [] {
      RejectedStays(w, act, h);
    } else {
      RejectedStays(w, acts[0], h);
      RejectedForGood(Step(w, acts[0]), acts[1..], h, act);
    }
  }

  /** An exchange the provider refuses writes no connection row, then or later. */
  lemma FailedExchangeWritesNothing(w: World, h: Delivery, acts: seq<Action>, act: Action)
    requires h in w.handlers && w.handlers[h].pc.Exchanging? && IsStepOf(act, h)
    ensures var failed := Step(w, Exchange(h, false));
            failed.table == w.table && Step(Run(failed, acts), act) == Run(failed, acts)
  {
    RejectedForGood(Step(w, Exchange(h, false)), acts, h, act);
  }

  lemma StepKeepsMarks(w: World, act: Action)
    requires Kept(w.table)
    ensures Kept(Step(w, act).table)
  {
    match act
    case Commit(h, id, now) =>
      if h in w.handlers && w.handlers[h].pc.Inserting? {
        var pc := w.handlers[h].pc;
        RetireKeeps(w.table, pc.retired);
        WriteKeeps(RetireAll(w.table, pc.retired), id, Connection(pc.row.distributorId, CONNECTED, 0, now));
      }
    case Disconnect(id) => if id in w.table { WriteKeeps(w.table, id, w.table[id].row.(status := DISCONNECTED)); }
    case MarkError(id) => if id in w.table { WriteKeeps(w.table, id, w.table[id].row.(status := ERROR)); }
    case StoreCredential(id, expected, next) =>
      if id in w.table { WriteKeeps(w.table, id, w.table[id].row.(credential := next)); }
    case _ =>
  }

  lemma {:induction false} RunKeepsMarks(w: World, acts: seq<Action>)
    requires Kept(w.table)
    ensures Kept(Run(w, acts).table)
    decreases |acts|
  {
    if acts != [] {
      StepKeepsMarks(w, acts[0]);
      RunKeepsMarks(Step(w, acts[0]), acts[1..]);
    }
  }

  /** After any interleaving of callbacks, disconnects and refreshes a distributor has at most one CONNECTED row. */
  lemma AtMostOneConnected(acts: seq<Action>, x: ConnectionId, y: ConnectionId)
    requires var table := Run(Fresh, acts).table;
             && x in table && y in table && table[x].row.status == CONNECTED && table[y].row.status == CONNECTED
             && table[x].row.distributorId == table[y].row.distributorId
    ensures x == y
  {
    RunKeepsMarks(Fresh, acts);
  }

  /** The index never stands in the way of a disconnect, a refresh or a refusal: only of a second connect. */
  lemma OnlyConnectsCollide(table: Table, id: ConnectionId, c: Connection)
    requires Kept(table) && id in table && c.distributorId == table[id].row.distributorId
    requires c.status == CONNECTED ==> table[id].row.status == CONNECTED
    ensures WriteRow(table, id, c).Some?
  {
    if c.status == CONNECTED {
      assert table[id].connectedDistributorId == Some(c.distributorId);
    }
  }

  /**
   When the transaction's insert is allowed: exactly when every connection of the distributor that
   is CONNECTED by then is one it picked to retire. A reconnect that committed in between makes it
   roll back, so the index is what keeps two racing callbacks apart.
   */
  lemma CommitsExactlyWhen(w: World, h: Delivery, id: ConnectionId, now: int)
    requires Kept(w.table) && h in w.handlers && w.handlers[h].pc.Inserting? && id !in w.table
    ensures Step(w, Commit(h, id, now)).handlers[h].pc == Connected(id) <==>
              forall c :: c in w.table && w.table[c].row.status == CONNECTED
                          && w.table[c].row.distributorId == w.handlers[h].pc.row.distributorId ==>
                c in w.handlers[h].pc.retired
  {
    var pc := w.handlers[h].pc;
    var retired := RetireAll(w.table, pc.retired);
    if c :| c in w.table && w.table[c].row.status == CONNECTED
            && w.table[c].row.distributorId == pc.row.distributorId && c !in pc.retired {
      assert retired[c].connectedDistributorId == Some(pc.row.distributorId);
    } else {
      RetireKeeps(w.table, pc.retired);
    }
  }

  /** A committed callback leaves its new row as the distributor's one live connection, broken ones included. */
  lemma CommitLeavesOnlyTheNewRow(w: World, h: Delivery, id: ConnectionId, now: int)
    requires Kept(w.table) && h in w.handlers && w.handlers[h].pc.Retiring? && id !in w.table
    ensures var distributorId := w.handlers[h].pc.row.distributorId;
            var w' := Step(Step(w, PickRetired(h)), Commit(h, id, now));
            && w'.handlers[h].pc == Connected(id)
            && (forall c :: c in w'.table && Retirable(w'.table[c].row, distributorId) <==> c == id)
            && (forall c :: c in w.table && w.table[c].row.distributorId != distributorId ==>
                  c in w'.table && w'.table[c].row == w.table[c].row)
  {
    var picked := Step(w, PickRetired(h));
    CommitsExactlyWhen(picked, h, id, now);
  }

  lemma UncontendedReachesTheTransaction(w: World, h: Delivery, state: State, now: int)
    requires h !in w.handlers && state in w.states && now <= w.states[state].expiresAt
    ensures var w' := Run(w, [Deliver(h, state), Find(h), Delete(h, now, true), Exchange(h, true)]);
            && w'.table == w.table && h in w'.handlers && w'.handlers[h].pc == Retiring(w.states[state])
            && state !in w'.states && h in Exchangers(w', state)
  {
    var looking := Step(w, Deliver(h, state));
    var found := Step(looking, Find(h));
    assert found.handlers[h] == Handler(state, Deleting(w.states[state])) && found.states == w.states;
    var deleted := Step(found, Delete(h, now, true));
    assert deleted.handlers[h] == Handler(state, Exchanging(w.states[state])) && state !in deleted.states;
    var exchanged := Step(deleted, Exchange(h, true));
    assert exchanged.handlers[h].pc == Retiring(w.states[state]) && exchanged.states == deleted.states;
    assert Run(exchanged, []) == exchanged;
    assert Run(deleted, [Exchange(h, true)]) == exchanged;
    assert Run(found, [Delete(h, now, true), Exchange(h, true)]) == exchanged;
    assert Run(looking, [Find(h), Delete(h, now, true), Exchange(h, true)]) == exchanged;
  }

  /**
   And a callback that brings what it must does connect: delivered in time with a code, and exchanged,
   with nothing in between, it ends in the one live connection of the state's distributor.
   */
  lemma UncontendedCallbackConnects(w: World, h: Delivery, state: State, now: int, id: ConnectionId)
    requires Kept(w.table) && h !in w.handlers && id !in w.table
    requires state in w.states && now <= w.states[state].expiresAt
    ensures var exchanged := Run(w, [Deliver(h, state), Find(h), Delete(h, now, true), Exchange(h, true)]);
            var w' := Step(Step(exchanged, PickRetired(h)), Commit(h, id, now));
            && h in w'.handlers && w'.handlers[h].pc == Connected(id)
            && (forall c :: c in w'.table && Retirable(w'.table[c].row, w.states[state].distributorId) <==> c == id)
  {
    UncontendedReachesTheTransaction(w, h, state, now);
    var exchanged := Run(w, [Deliver(h, state), Find(h), Delete(h, now, true), Exchange(h, true)]);
    CommitLeavesOnlyTheNewRow(exchanged, h, id, now);
  }
}
