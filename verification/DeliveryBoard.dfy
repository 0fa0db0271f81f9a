/**
 The delivery day board and its optimistic edits (apps/admin/src/lib/optimistic-board-update.ts and
 apps/admin/src/lib/resolve-drag-end.ts).
 */
module DeliveryBoard {
  import opened Wrappers

  type OrderId = nat
  type RunId = nat

  datatype Card = Card(orderId: OrderId, details: int)

  datatype RunStatus = OPEN | READY

  datatype Run = Run(runId: RunId, cards: seq<Card>, status: RunStatus, driverName: string)

  datatype Board = Board(unassigned: seq<Card>, runs: seq<Run>)

  // ----- The edits -----

  /** `filter` by another order id. */
  function Drop(cards: seq<Card>, id: OrderId): seq<Card> {
    if cards == [] then []
    else (if cards[0].orderId == id then [] else [cards[0]]) + Drop(cards[1..], id)
  }

  /** The card a filter callback assigns last. */
  function LastOf(cards: seq<Card>, id: OrderId): (card: Option<Card>)
    ensures card.Some? ==> card.value.orderId == id
  {
    if cards == [] then None
    else
      var later := LastOf(cards[1..], id);
      if later.Some? then later else if cards[0].orderId == id then Some(cards[0]) else None
  }

  datatype Removal = Removal(card: Option<Card>, board: Board)

  /** Only the first run holding the order loses it. */
  function RemoveFromRuns(runs: seq<Run>, id: OrderId): (Option<Card>, seq<Run>) {
    if runs == [] then (None, [])
    else
      var found := LastOf(runs[0].cards, id);
      if found.Some? then (found, [runs[0].(cards := Drop(runs[0].cards, id))] + runs[1..])
      else
        var (card, rest) := RemoveFromRuns(runs[1..], id);
        (card, [runs[0]] + rest)
  }

  function FindAndRemove(board: Board, id: OrderId): Removal {
    var found := LastOf(board.unassigned, id);
    var unassigned := Drop(board.unassigned, id);
    if found.Some? then Removal(found, board.(unassigned := unassigned))
    else
      var (card, runs) := RemoveFromRuns(board.runs, id);
      Removal(card, Board(unassigned, runs))
  }

  function AppendTo(runs: seq<Run>, to: RunId, card: Card): (after: seq<Run>)
    ensures |after| == |runs|
    ensures forall i :: 0 <= i < |runs| ==>
      after[i] == if runs[i].runId == to then runs[i].(cards := runs[i].cards + [card]) else runs[i]
  {
    if runs == [] then []
    else
      [if runs[0].runId == to then runs[0].(cards := runs[0].cards + [card]) else runs[0]]
      + AppendTo(runs[1..], to, card)
  }

  /** `to` is None for the unassigned column. */
  function ApplyMove(board: Board, id: OrderId, to: Option<RunId>): Board {
    var removal := FindAndRemove(board, id);
    if removal.card.None? then board
    else if to.None? then removal.board.(unassigned := removal.board.unassigned + [removal.card.value])
    else removal.board.(runs := AppendTo(removal.board.runs, to.value, removal.card.value))
  }

  /** The cards named, through a map in which the last card of an order wins. */
  function Pick(cards: seq<Card>, ids: seq<OrderId>): seq<Card> {
    if ids == [] then []
    else (if LastOf(cards, ids[0]).Some? then [LastOf(cards, ids[0]).value] else []) + Pick(cards, ids[1..])
  }

  function Reordered(runs: seq<Run>, runId: RunId, ids: seq<OrderId>): (after: seq<Run>)
    ensures |after| == |runs|
    ensures forall i :: 0 <= i < |runs| ==>
      after[i] == if runs[i].runId == runId then runs[i].(cards := Pick(runs[i].cards, ids)) else runs[i]
  {
    if runs == [] then []
    else
      [if runs[0].runId == runId then runs[0].(cards := Pick(runs[0].cards, ids)) else runs[0]]
      + Reordered(runs[1..], runId, ids)
  }

  function ApplyReorder(board: Board, runId: RunId, ids: seq<OrderId>): Board {
    board.(runs := Reordered(board.runs, runId, ids))
  }

  // ----- Where a drag leads -----

  datatype Column = Unassigned | RunColumn(runId: RunId)

  /** What the dragged card is over, if anything; a column may be missing from the drag data. */
  datatype Over = Nothing | OverColumn(column: Column) | OverCard(id: OrderId, cardColumn: Option<Column>)

  datatype DragEnd = DragEnd(active: OrderId, activeColumn: Option<Column>, over: Over)

  datatype DragResult = NoChange | Move(id: OrderId, to: Option<RunId>) | Reorder(runId: RunId, ids: seq<OrderId>)

  function ColumnOf(over: Over): Option<Column> {
    match over
    case Nothing => None
    case OverColumn(column) => Some(column)
    case OverCard(_, column) => column
  }

  function Ids(cards: seq<Card>): (ids: seq<OrderId>)
    ensures |ids| == |cards| && forall i :: 0 <= i < |ids| ==> ids[i] == cards[i].orderId
  {
    if cards == [] then [] else [cards[0].orderId] + Ids(cards[1..])
  }

  function IndexOf(ids: seq<OrderId>, id: OrderId): (i: Option<nat>)
    ensures i.Some? ==> i.value < |ids| && ids[i.value] == id
    ensures i.None? ==> id !in ids
  {
    if ids == [] then None
    else if ids[0] == id then Some(0)
    else
      var rest := IndexOf(ids[1..], id);
      if rest.None? then None else Some(rest.value + 1)
  }

  function FindRun(runs: seq<Run>, runId: RunId): (run: Option<Run>)
    ensures run.Some? ==> run.value in runs && run.value.runId == runId
  {
    if runs == [] then None else if runs[0].runId == runId then Some(runs[0]) else FindRun(runs[1..], runId)
  }

  function WithoutAt<T>(s: seq<T>, at: nat): seq<T>
    requires at < |s|
  {
    s[..at] + s[at + 1..]
  }

  /** arrayMove: take one out, put it back in at an index of what is left. */
  function ArrayMove<T>(s: seq<T>, oldIndex: nat, newIndex: nat): (moved: seq<T>)
    requires oldIndex < |s| && newIndex < |s|
    ensures |moved| == |s|
  {
    var rest := WithoutAt(s, oldIndex);
    rest[..newIndex] + [s[oldIndex]] + rest[newIndex..]
  }

  function ResolveDragEnd(event: DragEnd, board: Board): DragResult {
    var overColumn := ColumnOf(event.over);
    if event.activeColumn.None? || overColumn.None? then NoChange
    else if event.activeColumn != overColumn then
      Move(event.active, if overColumn.value.RunColumn? then Some(overColumn.value.runId) else None)
    else if event.over.OverCard? && event.over.id == event.active then NoChange
    else if overColumn.value.Unassigned? then NoChange
    else
      var run := FindRun(board.runs, overColumn.value.runId);
      if run.None? then NoChange
      else
        var ids := Ids(run.value.cards);
        var oldIndex := IndexOf(ids, event.active);
        // A column is no card: its id is no order's.
        var newIndex := if event.over.OverCard? then IndexOf(ids, event.over.id) else None;
        if oldIndex.None? || newIndex.None? then NoChange
        else Reorder(overColumn.value.runId, ArrayMove(ids, oldIndex.value, newIndex.value))
  }

  function Apply(board: Board, result: DragResult): Board {
    match result
    case NoChange => board
    case Move(id, to) => ApplyMove(board, id, to)
    case Reorder(runId, ids) => ApplyReorder(board, runId, ids)
  }

  function ApplyAll(board: Board, events: seq<DragEnd>): Board
    decreases |events|
  {
    if events == [] then board else ApplyAll(Apply(board, ResolveDragEnd(events[0], board)), events[1..])
  }

  // ----- What is on the board -----

  function RunCards(runs: seq<Run>): multiset<Card> {
    if runs == [] then multiset{} else multiset(runs[0].cards) + RunCards(runs[1..])
  }

  function Cards(board: Board): multiset<Card> {
    multiset(board.unassigned) + RunCards(board.runs)
  }

  /** Each order is on the board once, in one column. */
  ghost predicate OrdersOnce(cards: multiset<Card>) {
    && (forall c :: c in cards ==> cards[c] == 1)
    && (forall c, d :: c in cards && d in cards && c.orderId == d.orderId ==> c == d)
  }

  function RunIds(runs: seq<Run>): seq<RunId> {
    if runs == [] then [] else [runs[0].runId] + RunIds(runs[1..])
  }

  function CountRuns(runs: seq<Run>, id: RunId): nat {
    if runs == [] then 0 else (if runs[0].runId == id then 1 else 0) + CountRuns(runs[1..], id)
  }

  ghost predicate Absent(cards: seq<Card>, id: OrderId) {
    forall i :: 0 <= i < |cards| ==> cards[i].orderId != id
  }

  lemma {:induction false} DropNone(cards: seq<Card>, id: OrderId)
    ensures LastOf(cards, id).None? <==> Absent(cards, id)
    ensures Absent(cards, id) ==> Drop(cards, id) == cards
  {
    if cards != [] {
      DropNone(cards[1..], id);
      assert cards == [cards[0]] + cards[1..];
    }
  }

  ghost predicate OncePerOrder(cards: seq<Card>) {
    cards == [] || (Absent(cards[1..], cards[0].orderId) && OncePerOrder(cards[1..]))
  }

  lemma {:induction false} OnceGivesOncePerOrder(cards: seq<Card>)
    requires OrdersOnce(multiset(cards))
    ensures OncePerOrder(cards)
  {
    if cards != [] {
      var first, rest := cards[0], cards[1..];
      assert cards == [first] + rest;
      assert multiset(cards) == multiset{first} + multiset(rest);
      OnceInPart(multiset(rest), multiset(cards));
      OnceGivesOncePerOrder(rest);
      forall i | 0 <= i < |rest|
        ensures rest[i].orderId != first.orderId
      {
        assert rest[i] in multiset(rest) && rest[i] in multiset(cards) && first in multiset(cards);
      }
    }
  }

  /** In a column where orders are once, dropping one takes exactly its card. */
  lemma {:induction false} DropTakesOne(cards: seq<Card>, id: OrderId)
    requires OncePerOrder(cards) && LastOf(cards, id).Some?
    ensures multiset(cards) == multiset(Drop(cards, id)) + multiset{LastOf(cards, id).value}
  {
    var first, rest := cards[0], cards[1..];
    assert cards == [first] + rest;
    DropNone(rest, id);
    if first.orderId == id {
      assert Absent(rest, id);
      assert Drop(cards, id) == [] + rest == rest;
    } else {
      DropTakesOne(rest, id);
      assert multiset([first] + Drop(rest, id)) == multiset{first} + multiset(Drop(rest, id));
    }
  }

  lemma OnceInPart(part: multiset<Card>, whole: multiset<Card>)
    requires part <= whole && OrdersOnce(whole)
    ensures OrdersOnce(part)
  {
    forall c | c in part
      ensures part[c] == 1 && c in whole
    {
      assert part[c] <= whole[c];
    }
  }

  ghost predicate ColumnsOnce(runs: seq<Run>) {
    runs == [] || (OncePerOrder(runs[0].cards) && ColumnsOnce(runs[1..]))
  }

  lemma {:induction false} OnceGivesColumnsOnce(runs: seq<Run>)
    requires OrdersOnce(RunCards(runs))
    ensures ColumnsOnce(runs)
  {
    if runs != [] {
      OnceInPart(multiset(runs[0].cards), RunCards(runs));
      OnceGivesOncePerOrder(runs[0].cards);
      OnceInPart(RunCards(runs[1..]), RunCards(runs));
      OnceGivesColumnsOnce(runs[1..]);
    }
  }

  lemma {:induction false} RemoveTakesOne(runs: seq<Run>, id: OrderId)
    requires ColumnsOnce(runs)
    ensures var (card, after) := RemoveFromRuns(runs, id);
      && RunIds(after) == RunIds(runs)
      && (card.None? ==> after == runs)
      && (card.Some? ==> card.value.orderId == id && RunCards(runs) == RunCards(after) + multiset{card.value})
  {
    if runs != [] {
      var first, rest := runs[0], runs[1..];
      if LastOf(first.cards, id).Some? {
        DropTakesOne(first.cards, id);
      } else {
        RemoveTakesOne(rest, id);
        assert [first] + rest == runs;
      }
    }
  }

  /** Removing an order takes its one card off the board, wherever it was. */
  lemma FindTakesOne(board: Board, id: OrderId)
    requires OrdersOnce(Cards(board))
    ensures var removal := FindAndRemove(board, id);
      && RunIds(removal.board.runs) == RunIds(board.runs)
      && (removal.card.Some? ==> removal.card.value.orderId == id
                                 && Cards(board) == Cards(removal.board) + multiset{removal.card.value})
  {
    OnceInPart(multiset(board.unassigned), Cards(board));
    OnceGivesOncePerOrder(board.unassigned);
    OnceInPart(RunCards(board.runs), Cards(board));
    OnceGivesColumnsOnce(board.runs);
    DropNone(board.unassigned, id);
    if LastOf(board.unassigned, id).Some? {
      DropTakesOne(board.unassigned, id);
    } else {
      RemoveTakesOne(board.runs, id);
    }
  }

  ghost predicate OnBoard(board: Board, id: OrderId) {
    exists c :: c in Cards(board) && c.orderId == id
  }

  lemma FoundExactlyWhen(board: Board, id: OrderId)
    requires OrdersOnce(Cards(board))
    ensures FindAndRemove(board, id).card.Some? <==> OnBoard(board, id)
  {
    var removal := FindAndRemove(board, id);
    if removal.card.Some? {
      FindTakesOne(board, id);
      assert removal.card.value in Cards(board);
    } else {
      DropNone(board.unassigned, id);
      NotInRuns(board.runs, id);
    }
  }

  lemma {:induction false} NotInRuns(runs: seq<Run>, id: OrderId)
    requires RemoveFromRuns(runs, id).0.None?
    ensures forall c :: c in RunCards(runs) ==> c.orderId != id
  {
    if runs != [] {
      NotInRuns(runs[1..], id);
      DropNone(runs[0].cards, id);
    }
  }

  lemma {:induction false} AppendAddsCopies(runs: seq<Run>, to: RunId, card: Card)
    ensures RunIds(AppendTo(runs, to, card)) == RunIds(runs)
    ensures forall c ::
      RunCards(AppendTo(runs, to, card))[c] == RunCards(runs)[c] + if c == card then CountRuns(runs, to) else 0
  {
    if runs != [] { AppendAddsCopies(runs[1..], to, card); }
  }

  lemma {:induction false} SameIdsSameCount(a: seq<Run>, b: seq<Run>, id: RunId)
    requires RunIds(a) == RunIds(b)
    ensures CountRuns(a, id) == CountRuns(b, id)
  {
    if a != [] && b != [] {
      assert RunIds(a)[1..] == RunIds(a[1..]) && RunIds(b)[1..] == RunIds(b[1..]);
      SameIdsSameCount(a[1..], b[1..], id);
    }
  }

  lemma OneCopyBalances(before: multiset<Card>, removed: multiset<Card>, after: multiset<Card>, card: Card, copies: nat)
    requires before == removed + multiset{card}
    requires forall c :: after[c] == removed[c] + if c == card then copies else 0
    ensures after == before <==> copies == 1
  {
    assert after[card] == removed[card] + copies && before[card] == removed[card] + 1;
  }

  /**
   A move keeps every card on the board exactly when its order is not there, or it goes to the
   unassigned column or a run that is on the board once. To a run that is missing the card is lost.
   */
  lemma MoveConservesExactlyWhen(board: Board, id: OrderId, to: Option<RunId>)
    requires OrdersOnce(Cards(board))
    ensures RunIds(ApplyMove(board, id, to).runs) == RunIds(board.runs)
    ensures Cards(ApplyMove(board, id, to)) == Cards(board) <==>
      !OnBoard(board, id) || to.None? || CountRuns(board.runs, to.value) == 1
  {
    FindTakesOne(board, id);
    FoundExactlyWhen(board, id);
    var removal := FindAndRemove(board, id);
    if removal.card.Some? && to.Some? {
      var card := removal.card.value;
      AppendAddsCopies(removal.board.runs, to.value, card);
      SameIdsSameCount(removal.board.runs, board.runs, to.value);
      OneCopyBalances(Cards(board), Cards(removal.board), Cards(ApplyMove(board, id, to)),
        card, CountRuns(board.runs, to.value));
    }
  }

  lemma AbsentFrom(cards: seq<Card>, others: multiset<Card>, card: Card)
    requires OrdersOnce(multiset(cards) + others) && card in others
    ensures Absent(cards, card.orderId)
  {
    var whole := multiset(cards) + others;
    assert card in whole && whole[card] == multiset(cards)[card] + others[card];
    forall i | 0 <= i < |cards|
      ensures cards[i].orderId != card.orderId
    {
      assert cards[i] in multiset(cards) && cards[i] in whole;
    }
  }

  lemma {:induction false} AbsentFromRuns(runs: seq<Run>, others: multiset<Card>, card: Card, i: nat)
    requires OrdersOnce(RunCards(runs) + others) && card in others && i < |runs|
    ensures Absent(runs[i].cards, card.orderId)
  {
    var first, rest := multiset(runs[0].cards), RunCards(runs[1..]);
    if i == 0 {
      assert RunCards(runs) + others == first + (rest + others);
      AbsentFrom(runs[0].cards, rest + others, card);
    } else {
      assert RunCards(runs) + others == rest + (first + others);
      AbsentFromRuns(runs[1..], first + others, card, i - 1);
    }
  }

  lemma {:induction false} LastOfIsThere(cards: seq<Card>, id: OrderId)
    requires LastOf(cards, id).Some?
    ensures LastOf(cards, id).value in cards
  {
    if LastOf(cards[1..], id).Some? { LastOfIsThere(cards[1..], id); }
  }

  /** An order found in one column is in no run beside it, so dropping it there changes nothing. */
  lemma FoundElsewhere(cards: seq<Card>, runs: seq<Run>, id: OrderId, i: nat)
    requires OrdersOnce(RunCards(runs) + multiset(cards)) && LastOf(cards, id).Some? && i < |runs|
    ensures Drop(runs[i].cards, id) == runs[i].cards
  {
    LastOfIsThere(cards, id);
    AbsentFromRuns(runs, multiset(cards), LastOf(cards, id).value, i);
    DropNone(runs[i].cards, id);
  }

  /** The runs with an order dropped from each of them. */
  function DropFromRuns(runs: seq<Run>, id: OrderId): (after: seq<Run>)
    ensures |after| == |runs|
    ensures forall i :: 0 <= i < |runs| ==> after[i] == runs[i].(cards := Drop(runs[i].cards, id))
  {
    if runs == [] then []
    else [runs[0].(cards := Drop(runs[0].cards, id))] + DropFromRuns(runs[1..], id)
  }

  lemma FoundBeside(cards: seq<Card>, runs: seq<Run>, id: OrderId)
    requires OrdersOnce(RunCards(runs) + multiset(cards)) && LastOf(cards, id).Some?
    ensures DropFromRuns(runs, id) == runs
  {
    forall i | 0 <= i < |runs|
      ensures DropFromRuns(runs, id)[i] == runs[i]
    {
      FoundElsewhere(cards, runs, id, i);
    }
  }

  /** Where orders are on the board once, taking one out of the runs is dropping it from each of them. */
  lemma {:induction false} RemovingDropsFromEach(runs: seq<Run>, id: OrderId)
    requires OrdersOnce(RunCards(runs))
    ensures RemoveFromRuns(runs, id).1 == DropFromRuns(runs, id)
  {
    if runs != [] {
      assert RunCards(runs) == RunCards(runs[1..]) + multiset(runs[0].cards);
      if LastOf(runs[0].cards, id).Some? {
        FoundBeside(runs[0].cards, runs[1..], id);
      } else {
        OnceInPart(RunCards(runs[1..]), RunCards(runs));
        RemovingDropsFromEach(runs[1..], id);
        DropNone(runs[0].cards, id);
      }
    }
  }

  /** Taking an order off such a board is dropping it from every column. */
  lemma FindDropsEverywhere(board: Board, id: OrderId)
    requires OrdersOnce(Cards(board))
    ensures FindAndRemove(board, id).board == Board(Drop(board.unassigned, id), DropFromRuns(board.runs, id))
  {
    assert Cards(board) == RunCards(board.runs) + multiset(board.unassigned);
    if LastOf(board.unassigned, id).Some? {
      FoundBeside(board.unassigned, board.runs, id);
    } else {
      OnceInPart(RunCards(board.runs), Cards(board));
      RemovingDropsFromEach(board.runs, id);
    }
  }

  lemma FindsItsCard(board: Board, card: Card)
    requires OrdersOnce(Cards(board)) && card in Cards(board)
    ensures FindAndRemove(board, card.orderId).card == Some(card)
  {
    var id := card.orderId;
    assert OnBoard(board, id);
    FoundExactlyWhen(board, id);
    FindTakesOne(board, id);
    var found := FindAndRemove(board, id).card.value;
    assert found in Cards(board);
  }

  /** The column after a move: its old cards without the order, and the order's card last in the target. */
  function MovedInto(cards: seq<Card>, card: Card, target: bool): seq<Card> {
    Drop(cards, card.orderId) + if target then [card] else []
  }

  /**
   Where orders are on the board once, a move leaves every column its old cards without the order, in
   their order, and puts the order's card last in the target.
   */
  lemma MoveAppends(board: Board, card: Card, to: Option<RunId>)
    requires OrdersOnce(Cards(board)) && card in Cards(board)
    ensures var after := ApplyMove(board, card.orderId, to);
      && after.unassigned == MovedInto(board.unassigned, card, to.None?)
      && |after.runs| == |board.runs|
      && forall i :: 0 <= i < |board.runs| ==>
        after.runs[i] == board.runs[i].(cards := MovedInto(board.runs[i].cards, card, to == Some(board.runs[i].runId)))
  {
    FindDropsEverywhere(board, card.orderId);
    FindsItsCard(board, card);
  }

  lemma {:induction false} LastOfOnly(cards: seq<Card>, c: Card)
    requires OncePerOrder(cards) && c in cards
    ensures LastOf(cards, c.orderId) == Some(c)
  {
    DropNone(cards[1..], c.orderId);
    if cards[0] == c {
      assert Absent(cards[1..], c.orderId);
    } else {
      LastOfOnly(cards[1..], c);
    }
  }

  lemma {:induction false} PickSlice(cards: seq<Card>, part: seq<Card>)
    requires OncePerOrder(cards) && forall c :: c in part ==> c in cards
    ensures Pick(cards, Ids(part)) == part
  {
    if part != [] {
      assert part[0] in part;
      LastOfOnly(cards, part[0]);
      assert Ids(part)[1..] == Ids(part[1..]);
      PickSlice(cards, part[1..]);
    }
  }

  lemma ArrayMoveConserves<T>(s: seq<T>, oldIndex: nat, newIndex: nat)
    requires oldIndex < |s| && newIndex < |s|
    ensures multiset(ArrayMove(s, oldIndex, newIndex)) == multiset(s)
  {
    var x, rest := s[oldIndex], s[..oldIndex] + s[oldIndex + 1..];
    assert s == s[..oldIndex] + [x] + s[oldIndex + 1..];
    assert multiset(s) == multiset(rest) + multiset{x};
    assert rest == rest[..newIndex] + rest[newIndex..];
    assert ArrayMove(s, oldIndex, newIndex) == rest[..newIndex] + [x] + rest[newIndex..];
    assert multiset(rest) == multiset(rest[..newIndex]) + multiset(rest[newIndex..]);
  }

  /** arrayMove puts the element where it is asked to, and leaves the others in their order. */
  lemma ArrayMovePlaces<T>(s: seq<T>, oldIndex: nat, newIndex: nat)
    requires oldIndex < |s| && newIndex < |s|
    ensures ArrayMove(s, oldIndex, newIndex)[newIndex] == s[oldIndex]
    ensures WithoutAt(ArrayMove(s, oldIndex, newIndex), newIndex) == WithoutAt(s, oldIndex)
  {
  }

  lemma {:induction false} IdsAppend(a: seq<Card>, b: seq<Card>)
    ensures Ids(a + b) == Ids(a) + Ids(b)
  {
    if a == [] {
      assert a + b == b;
    } else {
      assert (a + b)[1..] == a[1..] + b;
      IdsAppend(a[1..], b);
    }
  }

  lemma IdsSplit(cards: seq<Card>, at: nat)
    requires at <= |cards|
    ensures Ids(cards[..at]) == Ids(cards)[..at] && Ids(cards[at..]) == Ids(cards)[at..]
  {
    IdsAppend(cards[..at], cards[at..]);
    assert cards == cards[..at] + cards[at..];
  }

  lemma IdsOfRest(cards: seq<Card>, at: nat)
    requires at < |cards|
    ensures Ids(WithoutAt(cards, at)) == WithoutAt(Ids(cards), at)
  {
    IdsSplit(cards, at);
    IdsSplit(cards, at + 1);
    IdsAppend(cards[..at], cards[at + 1..]);
  }

  lemma IdsOfMoved(cards: seq<Card>, oldIndex: nat, newIndex: nat)
    requires oldIndex < |cards| && newIndex < |cards|
    ensures Ids(ArrayMove(cards, oldIndex, newIndex)) == ArrayMove(Ids(cards), oldIndex, newIndex)
  {
    var rest, card := WithoutAt(cards, oldIndex), cards[oldIndex];
    IdsOfRest(cards, oldIndex);
    IdsSplit(rest, newIndex);
    IdsAppend(rest[..newIndex] + [card], rest[newIndex..]);
    IdsAppend(rest[..newIndex], [card]);
    assert Ids([card]) == [card.orderId] == [Ids(cards)[oldIndex]];
  }

  lemma MovedAreThere(cards: seq<Card>, oldIndex: nat, newIndex: nat)
    requires oldIndex < |cards| && newIndex < |cards|
    ensures forall c :: c in ArrayMove(cards, oldIndex, newIndex) ==> c in cards
  {
    ArrayMoveConserves(cards, oldIndex, newIndex);
    var moved := ArrayMove(cards, oldIndex, newIndex);
    forall c | c in moved
      ensures c in cards
    {
      assert c in multiset(moved);
    }
  }

  /** Picking the moved ids is moving the card. */
  lemma PickOfMoved(cards: seq<Card>, oldIndex: nat, newIndex: nat)
    requires OncePerOrder(cards) && oldIndex < |cards| && newIndex < |cards|
    ensures Pick(cards, ArrayMove(Ids(cards), oldIndex, newIndex)) == ArrayMove(cards, oldIndex, newIndex)
  {
    IdsOfMoved(cards, oldIndex, newIndex);
    MovedAreThere(cards, oldIndex, newIndex);
    PickSlice(cards, ArrayMove(cards, oldIndex, newIndex));
  }

  lemma {:induction false} AbsentIsUntouched(runs: seq<Run>, runId: RunId, ids: seq<OrderId>)
    requires CountRuns(runs, runId) == 0
    ensures Reordered(runs, runId, ids) == runs
  {
    if runs != [] { AbsentIsUntouched(runs[1..], runId, ids); }
  }

  /** A reorder from a drag moves one card within its own run and touches nothing else. */
  lemma {:induction false} ReorderMovesWithinRun(runs: seq<Run>, runId: RunId, oldIndex: nat, newIndex: nat)
    requires OrdersOnce(RunCards(runs)) && CountRuns(runs, runId) == 1
    requires FindRun(runs, runId).Some?
    requires oldIndex < |FindRun(runs, runId).value.cards| && newIndex < |FindRun(runs, runId).value.cards|
    ensures var run := FindRun(runs, runId).value;
      var after := Reordered(runs, runId, ArrayMove(Ids(run.cards), oldIndex, newIndex));
      && RunIds(after) == RunIds(runs)
      && RunCards(after) == RunCards(runs)
      && FindRun(after, runId) == Some(run.(cards := ArrayMove(run.cards, oldIndex, newIndex)))
      && (forall i :: 0 <= i < |runs| && runs[i].runId != runId ==> after[i] == runs[i])
  {
    var run := FindRun(runs, runId).value;
    var ids := ArrayMove(Ids(run.cards), oldIndex, newIndex);
    OnceInPart(multiset(runs[0].cards), RunCards(runs));
    OnceInPart(RunCards(runs[1..]), RunCards(runs));
    if runs[0].runId == runId {
      AbsentIsUntouched(runs[1..], runId, ids);
      OnceGivesOncePerOrder(run.cards);
      PickOfMoved(run.cards, oldIndex, newIndex);
      ArrayMoveConserves(run.cards, oldIndex, newIndex);
    } else {
      ReorderMovesWithinRun(runs[1..], runId, oldIndex, newIndex);
    }
  }

  // ----- What each kind of drop does -----

  /** The card was let go over the column itself, or over a card of it. */
  predicate DroppedOn(over: Over, column: Column) {
    over == OverColumn(column) || (over.OverCard? && over.cardColumn == Some(column))
  }

  /** Dropped on another column, the card leaves the one it is in and goes last in that column. */
  lemma DropOnAnotherColumn(board: Board, event: DragEnd, card: Card, column: Column)
    requires OrdersOnce(Cards(board)) && card in Cards(board) && card.orderId == event.active
    requires DroppedOn(event.over, column) && event.activeColumn.Some? && event.activeColumn != Some(column)
    ensures var after := Apply(board, ResolveDragEnd(event, board));
      && after.unassigned == MovedInto(board.unassigned, card, column == Unassigned)
      && |after.runs| == |board.runs|
      && forall i :: 0 <= i < |board.runs| ==>
        after.runs[i] ==
        board.runs[i].(cards := MovedInto(board.runs[i].cards, card, column == RunColumn(board.runs[i].runId)))
  {
    var to := if column.RunColumn? then Some(column.runId) else None;
    assert ResolveDragEnd(event, board) == Move(event.active, to);
    MoveAppends(board, card, to);
  }

  lemma {:induction false} OnceInEachRun(runs: seq<Run>, r: nat)
    requires OrdersOnce(RunCards(runs)) && r < |runs|
    ensures OncePerOrder(runs[r].cards)
  {
    if r == 0 {
      OnceInPart(multiset(runs[0].cards), RunCards(runs));
      OnceGivesOncePerOrder(runs[0].cards);
    } else {
      OnceInPart(RunCards(runs[1..]), RunCards(runs));
      OnceInEachRun(runs[1..], r - 1);
    }
  }

  lemma {:induction false} TheOnlyRunIsFound(runs: seq<Run>, r: nat)
    requires r < |runs| && CountRuns(runs, runs[r].runId) == 1
    ensures FindRun(runs, runs[r].runId) == Some(runs[r])
    ensures forall i :: 0 <= i < |runs| && i != r ==> runs[i].runId != runs[r].runId
  {
    if r == 0 {
      NotCountedNotThere(runs[1..], runs[r].runId);
    } else {
      CountedWhereItIs(runs[1..], r - 1);
      TheOnlyRunIsFound(runs[1..], r - 1);
    }
  }

  lemma {:induction false} NotCountedNotThere(runs: seq<Run>, runId: RunId)
    requires CountRuns(runs, runId) == 0
    ensures forall i :: 0 <= i < |runs| ==> runs[i].runId != runId
  {
    if runs != [] { NotCountedNotThere(runs[1..], runId); }
  }

  lemma {:induction false} CountedWhereItIs(runs: seq<Run>, r: nat)
    requires r < |runs|
    ensures CountRuns(runs, runs[r].runId) >= 1
  {
    if r > 0 { CountedWhereItIs(runs[1..], r - 1); }
  }

  lemma {:induction false} IndexOfOnly(cards: seq<Card>, at: nat)
    requires OncePerOrder(cards) && at < |cards|
    ensures IndexOf(Ids(cards), cards[at].orderId) == Some(at)
  {
    assert Ids(cards)[1..] == Ids(cards[1..]);
    if at > 0 {
      IndexOfOnly(cards[1..], at - 1);
    }
  }

  lemma ReorderInto(board: Board, r: nat, oldIndex: nat, newIndex: nat)
    requires OrdersOnce(Cards(board)) && r < |board.runs| && CountRuns(board.runs, board.runs[r].runId) == 1
    requires oldIndex < |board.runs[r].cards| && newIndex < |board.runs[r].cards|
    ensures var run := board.runs[r];
      ApplyReorder(board, run.runId, ArrayMove(Ids(run.cards), oldIndex, newIndex)) ==
      board.(runs := board.runs[r := run.(cards := ArrayMove(run.cards, oldIndex, newIndex))])
  {
    var run := board.runs[r];
    var ids := ArrayMove(Ids(run.cards), oldIndex, newIndex);
    OnceInPart(RunCards(board.runs), Cards(board));
    OnceInEachRun(board.runs, r);
    TheOnlyRunIsFound(board.runs, r);
    PickOfMoved(run.cards, oldIndex, newIndex);
    assert Reordered(board.runs, run.runId, ids) ==
           board.runs[r := run.(cards := ArrayMove(run.cards, oldIndex, newIndex))];
  }

  /**
   Dropped over another card of its own run, the card takes that card's place, the others of the run
   keep their order, and nothing else on the board changes.
   */
  lemma DropOverACard(board: Board, event: DragEnd, r: nat, oldIndex: nat, newIndex: nat)
    requires OrdersOnce(Cards(board)) && r < |board.runs| && CountRuns(board.runs, board.runs[r].runId) == 1
    requires oldIndex < |board.runs[r].cards| && board.runs[r].cards[oldIndex].orderId == event.active
    requires newIndex < |board.runs[r].cards| && newIndex != oldIndex
    requires event.activeColumn == Some(RunColumn(board.runs[r].runId))
    requires event.over == OverCard(board.runs[r].cards[newIndex].orderId, event.activeColumn)
    ensures var after := Apply(board, ResolveDragEnd(event, board));
      && after == board.(runs := board.runs[r := board.runs[r].(cards := after.runs[r].cards)])
      && |after.runs[r].cards| == |board.runs[r].cards|
      && after.runs[r].cards[newIndex] == board.runs[r].cards[oldIndex]
      && WithoutAt(after.runs[r].cards, newIndex) == WithoutAt(board.runs[r].cards, oldIndex)
  {
    var run := board.runs[r];
    OnceInPart(RunCards(board.runs), Cards(board));
    OnceInEachRun(board.runs, r);
    TheOnlyRunIsFound(board.runs, r);
    IndexOfOnly(run.cards, oldIndex);
    IndexOfOnly(run.cards, newIndex);
    assert ResolveDragEnd(event, board) == Reorder(run.runId, ArrayMove(Ids(run.cards), oldIndex, newIndex));
    ReorderInto(board, r, oldIndex, newIndex);
    ArrayMovePlaces(run.cards, oldIndex, newIndex);
  }

  predicate HasOrder(cards: seq<Card>, id: OrderId) {
    exists i :: 0 <= i < |cards| && cards[i].orderId == id
  }

  /** The drop is over another card of the run the dragged card is in. */
  predicate OverItsRun(event: DragEnd, run: Run) {
    && event.over.OverCard? && event.over.id != event.active
    && HasOrder(run.cards, event.active) && HasOrder(run.cards, event.over.id)
  }

  /**
   A drop does nothing exactly when it is over nothing, or stays in its column without being over
   another card of the same run: among the unassigned, over the card itself, over the column's bare
   space, in a run that is gone, or with a card that has left it.
   */
  lemma DropDoesNothingExactlyWhen(board: Board, event: DragEnd)
    ensures ResolveDragEnd(event, board).NoChange? <==>
      event.activeColumn.None?
      || (forall column :: !DroppedOn(event.over, column))
      || (DroppedOn(event.over, event.activeColumn.value)
          && (event.activeColumn.value.RunColumn? ==>
                var run := FindRun(board.runs, event.activeColumn.value.runId);
                run.None? || !OverItsRun(event, run.value)))
  {
    if event.activeColumn.Some? {
      var column := ColumnOf(event.over);
      assert column.Some? ==> DroppedOn(event.over, column.value);
      if event.activeColumn.value.RunColumn? {
        var run := FindRun(board.runs, event.activeColumn.value.runId);
        if run.Some? {
          HasOrderInIds(run.value.cards, event.active);
          if event.over.OverCard? { HasOrderInIds(run.value.cards, event.over.id); }
        }
      }
    }
  }

  lemma HasOrderInIds(cards: seq<Card>, id: OrderId)
    ensures HasOrder(cards, id) <==> IndexOf(Ids(cards), id).Some?
  {
    var ids := Ids(cards);
    if HasOrder(cards, id) {
      var i :| 0 <= i < |cards| && cards[i].orderId == id;
      assert ids[i] == id;
    }
  }

  // ----- Over every sequence of drags -----

  predicate TargetExists(event: DragEnd, runs: seq<Run>) {
    ColumnOf(event.over).Some? && ColumnOf(event.over).value.RunColumn? ==>
      CountRuns(runs, ColumnOf(event.over).value.runId) == 1
  }

  /** A drag that reorders moves a card of an existing run to the place of another of its cards. */
  lemma ResolvedReorder(event: DragEnd, board: Board) returns (oldIndex: nat, newIndex: nat)
    requires ResolveDragEnd(event, board).Reorder?
    ensures var result := ResolveDragEnd(event, board);
      var run := FindRun(board.runs, result.runId);
      && ColumnOf(event.over) == Some(RunColumn(result.runId))
      && run.Some? && oldIndex < |run.value.cards| && newIndex < |run.value.cards|
      && result.ids == ArrayMove(Ids(run.value.cards), oldIndex, newIndex)
  {
    var ids := Ids(FindRun(board.runs, ColumnOf(event.over).value.runId).value.cards);
    oldIndex := IndexOf(ids, event.active).value;
    newIndex := IndexOf(ids, event.over.id).value;
  }

  lemma ResolvedMove(event: DragEnd, board: Board)
    requires ResolveDragEnd(event, board).Move?
    ensures var to := ResolveDragEnd(event, board).to;
      to.Some? ==> ColumnOf(event.over) == Some(RunColumn(to.value))
  {
  }

  lemma DragConserves(board: Board, event: DragEnd)
    requires OrdersOnce(Cards(board)) && TargetExists(event, board.runs)
    ensures var after := Apply(board, ResolveDragEnd(event, board));
      Cards(after) == Cards(board) && RunIds(after.runs) == RunIds(board.runs)
  {
    var result := ResolveDragEnd(event, board);
    match result
    case NoChange =>
    case Move(id, to) =>
      ResolvedMove(event, board);
      MoveConservesExactlyWhen(board, id, to);
    case Reorder(runId, ids) =>
      var oldIndex, newIndex := ResolvedReorder(event, board);
      OnceInPart(RunCards(board.runs), Cards(board));
      ReorderMovesWithinRun(board.runs, runId, oldIndex, newIndex);
  }

  /**
   Any drags over columns of the board conserve its cards: each order stays on it once, in one column.
   */
  lemma {:induction false} DragsConserve(board: Board, events: seq<DragEnd>)
    requires OrdersOnce(Cards(board)) && forall e :: e in events ==> TargetExists(e, board.runs)
    ensures Cards(ApplyAll(board, events)) == Cards(board)
    ensures OrdersOnce(Cards(ApplyAll(board, events)))
    decreases |events|
  {
    if events != [] {
      var next := Apply(board, ResolveDragEnd(events[0], board));
      assert events[0] in events;
      DragConserves(board, events[0]);
      forall e | e in events[1..]
        ensures TargetExists(e, next.runs)
      {
        assert e in events;
        if ColumnOf(e.over).Some? && ColumnOf(e.over).value.RunColumn? {
          SameIdsSameCount(board.runs, next.runs, ColumnOf(e.over).value.runId);
        }
      }
      DragsConserve(next, events[1..]);
    }
  }

  // ----- The loops -----

  method FilterOut(cards: seq<Card>, id: OrderId, found: Option<Card>) returns (card: Option<Card>, rest: seq<Card>)
    ensures rest == Drop(cards, id)
    ensures card == if LastOf(cards, id).Some? then LastOf(cards, id) else found
  {
    card, rest := found, [];
    for i := 0 to |cards|
      invariant rest == Drop(cards[..i], id)
      invariant card == if LastOf(cards[..i], id).Some? then LastOf(cards[..i], id) else found
    {
      FilterAppend(cards[..i], cards[i], id);
      assert cards[..i + 1] == cards[..i] + [cards[i]];
      if cards[i].orderId == id { card := Some(cards[i]); } else { rest := rest + [cards[i]]; }
    }
    assert cards[..|cards|] == cards;
  }

  lemma {:induction false} FilterAppend(cards: seq<Card>, c: Card, id: OrderId)
    ensures Drop(cards + [c], id) == Drop(cards, id) + if c.orderId == id then [] else [c]
    ensures LastOf(cards + [c], id) == if c.orderId == id then Some(c) else LastOf(cards, id)
  {
    if cards == [] {
      assert cards + [c] == [c];
      assert Drop([c][1..], id) == [] && LastOf([c][1..], id) == None;
    } else {
      assert (cards + [c])[1..] == cards[1..] + [c];
      FilterAppend(cards[1..], c, id);
    }
  }

  /** What the loop over the runs comes to, with `card` and `runs` so far and `tail` to go. */
  function Continue(card: Option<Card>, runs: seq<Run>, tail: seq<Run>, id: OrderId): (Option<Card>, seq<Run>) {
    if card.Some? then (card, runs + tail)
    else
      var (found, rest) := RemoveFromRuns(tail, id);
      (found, runs + rest)
  }

  lemma ContinueStep(card: Option<Card>, runs: seq<Run>, tail: seq<Run>, id: OrderId)
    requires tail != []
    ensures var r := tail[0];
      Continue(card, runs, tail, id) ==
      if card.Some? then Continue(card, runs + [r], tail[1..], id)
      else Continue(LastOf(r.cards, id), runs + [r.(cards := Drop(r.cards, id))], tail[1..], id)
  {
    var r, rest := tail[0], tail[1..];
    assert runs + tail == runs + [r] + rest;
    if card.None? {
      DropNone(r.cards, id);
      if LastOf(r.cards, id).None? {
        var after := RemoveFromRuns(rest, id).1;
        assert runs + ([r] + after) == runs + [r] + after;
      } else {
        var dropped := r.(cards := Drop(r.cards, id));
        assert runs + ([dropped] + rest) == runs + [dropped] + rest;
      }
    }
  }

  lemma {:induction false} DropShortens(cards: seq<Card>, id: OrderId)
    ensures |Drop(cards, id)| <= |cards| && (|Drop(cards, id)| == |cards| ==> Drop(cards, id) == cards)
  {
    if cards != [] { DropShortens(cards[1..], id); }
  }

  /** The source's loop over the columns, with `card` set from inside the callbacks. */
  method FindAndRemoveCard(board: Board, id: OrderId) returns (removal: Removal)
    ensures removal == FindAndRemove(board, id)
  {
    var card, unassigned := FilterOut(board.unassigned, id, None);
    var runs: seq<Run> := [];
    ghost var goal := Continue(card, [], board.runs, id);
    assert board.runs[0..] == board.runs;
    for i := 0 to |board.runs|
      invariant Continue(card, runs, board.runs[i..], id) == goal
    {
      var r := board.runs[i];
      ContinueStep(card, runs, board.runs[i..], id);
      assert board.runs[i..][1..] == board.runs[i + 1..];
      if card.Some? {
        runs := runs + [r];
      } else {
        var cards;
        card, cards := FilterOut(r.cards, id, None);
        DropShortens(r.cards, id);
        runs := runs + [if |cards| == |r.cards| then r else r.(cards := cards)];
      }
    }
    assert Continue(card, runs, [], id) == (card, runs + []) && runs + [] == runs;
    LoopIsRemoval(board, id);
    return Removal(card, Board(unassigned, runs));
  }

  lemma LoopIsRemoval(board: Board, id: OrderId)
    ensures var (card, runs) := Continue(LastOf(board.unassigned, id), [], board.runs, id);
      FindAndRemove(board, id) == Removal(card, Board(Drop(board.unassigned, id), runs))
  {
    assert [] + board.runs == board.runs;
    var rest := RemoveFromRuns(board.runs, id).1;
    assert [] + rest == rest;
  }
}
