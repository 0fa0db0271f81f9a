/**
 Fetches that overlap (apps/api/src/accounting-invoice-sync/accounting-invoice-sync.processor.ts): each
 reads the row with its chunk and writes it later, against whatever others wrote in between.
 */
module InvoiceSyncOverlap {
  import opened Wrappers
  import opened InvoiceSync

  type Fetch = nat

  /** One export row, and what each fetch has read of it; a chunk's read serves all its records. */
  datatype World = World(row: Row, seen: map<Fetch, Row>)

  datatype Action = Read(fetch: Fetch) | Apply(fetch: Fetch, next: Snapshot)

  function StepOf(w: World, act: Action): World {
    match act
    case Read(f) => w.(seen := w.seen[f := w.row])
    case Apply(f, next) => if f in w.seen then w.(row := Merge(w.seen[f], w.row, next)) else w
  }

  ghost predicate AllTimed(acts: seq<Action>) {
    forall act :: act in acts && act.Apply? ==> act.next.updatedAt.Some?
  }

  /** The row's provider time is never lowered along the run. */
  predicate NeverGoesBack(w: World, acts: seq<Action>)
    decreases |acts|
  {
    acts == [] ||
    (AtMost(w.row.updatedAt, StepOf(w, acts[0]).row.updatedAt) && NeverGoesBack(StepOf(w, acts[0]), acts[1..]))
  }

  /** No snapshot is written that is older than the row re-read. */
  predicate Guarded(w: World, act: Action) {
    act.Apply? && act.fetch in w.seen && Writes(w.seen[act.fetch], w.row, act.next) ==>
      !Before(act.next.updatedAt, w.row.updatedAt)
  }

  predicate GuardedRun(w: World, acts: seq<Action>)
    decreases |acts|
  {
    acts == [] || (Guarded(w, acts[0]) && GuardedRun(StepOf(w, acts[0]), acts[1..]))
  }

  /** Over any overlapping fetches the row never goes back exactly where that one write is avoided. */
  lemma {:induction false} NeverGoesBackExactlyWhen(w: World, acts: seq<Action>)
    requires AllTimed(acts)
    ensures NeverGoesBack(w, acts) <==> GuardedRun(w, acts)
    decreases |acts|
  {
    if acts != [] {
      assert acts[0] in acts;
      assert forall act :: act in acts[1..] ==> act in acts;
      if acts[0].Apply? && acts[0].fetch in w.seen {
        GoesBackExactlyWhen(w.seen[acts[0].fetch], w.row, acts[0].next);
      }
      NeverGoesBackExactlyWhen(StepOf(w, acts[0]), acts[1..]);
    }
  }

  // ----- Which schedules are safe, whatever is fetched -----

  /** The order in which fetches read and write, not yet what they write. */
  datatype Move = Reads(fetch: Fetch) | Applies(fetch: Fetch)

  function Fill(moves: seq<Move>, contents: seq<Snapshot>): (acts: seq<Action>)
    requires |contents| == |moves|
    ensures |acts| == |moves|
  {
    if moves == [] then []
    else
      [match moves[0] case Reads(f) => Read(f) case Applies(f) => Apply(f, contents[0])]
      + Fill(moves[1..], contents[1..])
  }

  /**
   No fetch writes on a read that another write, or its own, has come after. `current` are the fetches whose
   read is not behind yet, `stale` those whose read is.
   */
  predicate Serial(moves: seq<Move>, current: set<Fetch>, stale: set<Fetch>)
    decreases |moves|
  {
    moves == [] ||
    match moves[0]
    case Reads(f) => Serial(moves[1..], current + {f}, stale - {f})
    case Applies(f) =>
      && f !in stale
      && if f in current then Serial(moves[1..], {}, stale + current) else Serial(moves[1..], current, stale)
  }

  ghost predicate Tracks(w: World, current: set<Fetch>, stale: set<Fetch>) {
    && w.seen.Keys == current + stale && current !! stale
    && forall f :: f in current ==> w.seen[f] == w.row
  }

  lemma {:induction false} SerialNeverGoesBack(w: World, moves: seq<Move>, contents: seq<Snapshot>, current: set<Fetch>,
      stale: set<Fetch>)
    requires Tracks(w, current, stale) && Serial(moves, current, stale)
    requires |contents| == |moves| && Timed(contents)
    ensures NeverGoesBack(w, Fill(moves, contents))
    decreases |moves|
  {
    if moves != [] {
      var act, next := Fill(moves, contents)[0], StepOf(w, Fill(moves, contents)[0]);
      assert Fill(moves, contents)[1..] == Fill(moves[1..], contents[1..]);
      assert contents[0] in contents && forall s :: s in contents[1..] ==> s in contents;
      match moves[0]
      case Reads(f) => SerialNeverGoesBack(next, moves[1..], contents[1..], current + {f}, stale - {f});
      case Applies(f) =>
        if f in current {
          GoesBackExactlyWhen(w.row, w.row, contents[0]);
          SerialNeverGoesBack(next, moves[1..], contents[1..], {}, stale + current);
        } else {
          SerialNeverGoesBack(next, moves[1..], contents[1..], current, stale);
        }
    }
  }

  /** A snapshot whose facts are told from others by the credited amount. */
  function Telling(credited: int, time: int): Snapshot {
    Snapshot(Facts(AWAITING_PAYMENT, Balance(0, 0, 0, None, None, None), credited, ""), Some(time), None)
  }

  predicate Below(row: Row, credited: int, time: int) {
    (row.facts.Some? ==> row.facts.value.credited < credited) && (row.updatedAt.Some? ==> row.updatedAt.value < time)
  }

  /** What is stored and read is told from anything to come, and stale reads are behind the row. */
  ghost predicate Behind(w: World, stale: set<Fetch>, credited: int, time: int) {
    && Below(w.row, credited, time)
    && forall f :: f in stale ==>
      f in w.seen && Below(w.seen[f], credited, time) && w.row.updatedAt.Some?
      && (w.seen[f].updatedAt.Some? ==> Before(w.seen[f].updatedAt, w.row.updatedAt))
  }

  function Fillers(n: nat): (contents: seq<Snapshot>)
    ensures |contents| == n && Timed(contents)
  {
    if n == 0 then [] else [Telling(0, 0)] + Fillers(n - 1)
  }

  /** No later than the row, and yet let through by the read of the fetch. */
  function Late(w: World, f: Fetch, credited: int): Snapshot
    requires f in w.seen && w.row.updatedAt.Some?
  {
    Telling(credited, if w.seen[f].updatedAt.Some? then w.seen[f].updatedAt.value else w.row.updatedAt.value - 1)
  }

  lemma LateGoesBack(w: World, f: Fetch, stale: set<Fetch>, credited: int, time: int)
    requires Behind(w, stale, credited, time) && f in stale
    ensures !AtMost(w.row.updatedAt, StepOf(w, Apply(f, Late(w, f, credited))).row.updatedAt)
  {
  }

  lemma {:induction false} UnserialCanGoBack(w: World, moves: seq<Move>, current: set<Fetch>, stale: set<Fetch>,
      credited: int, time: int)
    returns (contents: seq<Snapshot>)
    requires Tracks(w, current, stale) && !Serial(moves, current, stale) && Behind(w, stale, credited, time)
    ensures |contents| == |moves| && Timed(contents) && !NeverGoesBack(w, Fill(moves, contents))
    decreases |moves|
  {
    var first, rest := Telling(credited, time), Fillers(|moves| - 1);
    match moves[0] {
      case Reads(f) =>
        rest := UnserialCanGoBack(StepOf(w, Read(f)), moves[1..], current + {f}, stale - {f}, credited, time);
      case Applies(f) =>
        if f in stale {
          first := Late(w, f, credited);
          LateGoesBack(w, f, stale, credited, time);
        } else if f in current {
          var next := StepOf(w, Apply(f, first));
          rest := UnserialCanGoBack(next, moves[1..], {}, stale + current, credited + 1, time + 1);
        } else {
          rest := UnserialCanGoBack(w, moves[1..], current, stale, credited, time);
        }
    }
    contents := [first] + rest;
    assert contents[1..] == rest;
    assert Fill(moves, contents)[1..] == Fill(moves[1..], rest);
  }

  /**
   A schedule of overlapping fetches never moves the row back, whatever snapshots it delivers, if and only
   if no fetch writes on a read that another write has come after, its own earlier records included.
   */
  lemma SafeScheduleExactlyWhen(row: Row, moves: seq<Move>)
    ensures (forall contents :: |contents| == |moves| && Timed(contents) ==>
               NeverGoesBack(World(row, map[]), Fill(moves, contents))) <==>
      Serial(moves, {}, {})
  {
    var w := World(row, map[]);
    if Serial(moves, {}, {}) {
      forall contents | |contents| == |moves| && Timed(contents)
        ensures NeverGoesBack(w, Fill(moves, contents))
      {
        SerialNeverGoesBack(w, moves, contents, {}, {});
      }
    } else {
      var credited := if row.facts.Some? then row.facts.value.credited + 1 else 0;
      var time := if row.updatedAt.Some? then row.updatedAt.value + 1 else 0;
      var contents := UnserialCanGoBack(w, moves, {}, {}, credited, time);
    }
  }
}
