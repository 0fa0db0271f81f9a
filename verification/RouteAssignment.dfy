/**
 Filling delivery routes with a roster of customers (assignRoutes in
 apps/api/scripts/seed-demo-dashboards.ts). Routes are their indices in the list of routes.
 */
module RouteAssignment {
  type Customer = nat
  type Route = nat

  /** A customer's current place on a route; customers off the roster have places too. */
  datatype Place = Place(route: Route, customer: Customer, position: int)

  datatype Slot = Slot(route: Route, position: int)

  type Assignment = map<Customer, Route>

  function Members(assignment: Assignment, r: Route): set<Customer> {
    set c | c in assignment && assignment[c] == r
  }

  function Size(assignment: Assignment, r: Route): nat {
    |Members(assignment, r)|
  }

  function RoutesOf(placed: map<Customer, Slot>): Assignment {
    map c | c in placed :: placed[c].route
  }

  ghost predicate Within(assignment: Assignment, routes: nat) {
    forall c :: c in assignment ==> assignment[c] < routes
  }

  // ----- Greedy is best -----

  /** A route grew only while no route was smaller. */
  ghost predicate Balanced(before: Assignment, after: Assignment, routes: nat) {
    forall r :: 0 <= r < routes && Size(after, r) != Size(before, r) ==> AtMostOneMore(after, r, routes)
  }

  ghost predicate AtMostOneMore(assignment: Assignment, r: Route, routes: nat) {
    forall k :: 0 <= k < routes ==> Size(assignment, r) - 1 <= Size(assignment, k)
  }

  ghost predicate Extends(before: Assignment, after: Assignment) {
    forall c :: c in before ==> c in after && after[c] == before[c]
  }

  function Total(assignment: Assignment, routes: nat): nat {
    if routes == 0 then 0 else Total(assignment, routes - 1) + Size(assignment, routes - 1)
  }

  /** The same size on every route. */
  function Times(routes: nat, size: int): int {
    if routes == 0 then 0 else Times(routes - 1, size) + size
  }

  function Below(assignment: Assignment, routes: int): set<Customer> {
    set c | c in assignment && assignment[c] < routes
  }

  lemma {:induction false} TotalCountsMembers(assignment: Assignment, routes: nat)
    ensures Total(assignment, routes) == |Below(assignment, routes)|
  {
    if routes > 0 {
      TotalCountsMembers(assignment, routes - 1);
      assert Below(assignment, routes) == Below(assignment, routes - 1) + Members(assignment, routes - 1);
      assert Below(assignment, routes - 1) !! Members(assignment, routes - 1);
    }
  }

  lemma EveryoneCounts(assignment: Assignment, routes: nat)
    requires Within(assignment, routes)
    ensures Total(assignment, routes) == |assignment.Keys|
  {
    TotalCountsMembers(assignment, routes);
    assert Below(assignment, routes) == assignment.Keys;
  }

  lemma {:induction false} TotalAtLeast(assignment: Assignment, routes: nat, least: int)
    requires forall k :: 0 <= k < routes ==> least <= Size(assignment, k)
    ensures Times(routes, least) <= Total(assignment, routes)
  {
    if routes > 0 { TotalAtLeast(assignment, routes - 1, least); }
  }

  lemma {:induction false} TotalAtMost(assignment: Assignment, routes: nat, most: int)
    requires forall k :: 0 <= k < routes ==> Size(assignment, k) <= most
    ensures Total(assignment, routes) <= Times(routes, most)
  {
    if routes > 0 { TotalAtMost(assignment, routes - 1, most); }
  }

  lemma {:induction false} TotalAbove(assignment: Assignment, routes: nat, r: Route, least: int)
    requires r < routes && Size(assignment, r) > least
    requires forall k :: 0 <= k < routes ==> least <= Size(assignment, k)
    ensures Times(routes, least) < Total(assignment, routes)
  {
    if r == routes - 1 {
      TotalAtLeast(assignment, routes - 1, least);
    } else {
      TotalAbove(assignment, routes - 1, r, least);
    }
  }

  lemma SizeGrows(before: Assignment, after: Assignment, r: Route)
    requires Extends(before, after)
    ensures Size(before, r) <= Size(after, r)
  {
    SubsetIsSmaller(Members(before, r), Members(after, r));
  }

  lemma {:induction false} SubsetIsSmaller(a: set<Customer>, b: set<Customer>)
    requires a <= b
    ensures |a| <= |b|
  {
    if a != {} {
      var x :| x in a;
      SubsetIsSmaller(a - {x}, b - {x});
    }
  }

  ghost predicate NotAboveAll(assignment: Assignment, r: Route, other: Assignment, routes: nat) {
    exists k :: 0 <= k < routes && Size(assignment, r) <= Size(other, k)
  }

  /** No other way to place the same customers keeps every route below the largest of these. */
  lemma LargestIsLeast(before: Assignment, after: Assignment, other: Assignment, routes: nat, r: Route)
    requires r < routes && Within(after, routes) && Within(other, routes)
    requires Extends(before, after) && Extends(before, other) && other.Keys == after.Keys
    requires Balanced(before, after, routes)
    ensures NotAboveAll(after, r, other, routes)
  {
    if Size(after, r) == Size(before, r) {
      SizeGrows(before, other, r);
    } else if !NotAboveAll(after, r, other, routes) {
      EveryoneCounts(after, routes);
      EveryoneCounts(other, routes);
      TotalAbove(after, routes, r, Size(after, r) - 1);
      TotalAtMost(other, routes, Size(after, r) - 1);
      assert false;
    }
  }

  /** Every route of `after` is no larger than the largest in any assignment extending `before`. */
  ghost predicate BestPossible(before: Assignment, after: Assignment, routes: nat) {
    forall other: Assignment, r: Route ::
      r < routes && Within(other, routes) && Extends(before, other) && other.Keys == after.Keys ==>
      NotAboveAll(after, r, other, routes)
  }

  // ----- The assignment -----

  /** Math.min(...sizes) */
  function Min(s: seq<int>): (least: int)
    requires s != []
    ensures least in s && forall x :: x in s ==> least <= x
  {
    if |s| == 1 then s[0]
    else
      assert s == [s[0]] + s[1..];
      var rest := Min(s[1..]);
      if s[0] <= rest then s[0] else rest
  }

  function IndexOf(s: seq<int>, x: int): (i: nat)
    requires x in s
    ensures i < |s| && s[i] == x && x !in s[..i]
  {
    if s[0] == x then 0 else 1 + IndexOf(s[1..], x)
  }

  /** Each roster customer starts on at most one route. */
  ghost predicate OnOneRoute(existing: seq<Place>, roster: seq<Customer>) {
    forall i, j :: 0 <= i < j < |existing| && existing[i].customer in roster ==>
      existing[i].customer != existing[j].customer
  }

  ghost predicate Keeps(placed: map<Customer, Slot>, existing: seq<Place>, c: Customer) {
    c in placed && Place(placed[c].route, c, placed[c].position) in existing
  }

  /** Every position on the route so far is at most `last`. */
  ghost predicate Covers(existing: seq<Place>, r: Route, last: int) {
    forall p :: p in existing && p.route == r ==> p.position <= last
  }

  ghost predicate HasPlace(existing: seq<Place>, c: Customer) {
    exists p :: p in existing && p.customer == c
  }

  /** The roster customers with a place among `seen` are placed, each on a place of their own. */
  ghost predicate Counted(seen: seq<Place>, roster: seq<Customer>, placed: map<Customer, Slot>) {
    && (forall c :: c in placed <==> c in roster && HasPlace(seen, c))
    && (forall c :: c in placed ==> Keeps(placed, seen, c))
  }

  lemma CountedStep(seen: seq<Place>, row: Place, roster: seq<Customer>, placed: map<Customer, Slot>)
    requires Counted(seen, roster, placed)
    ensures Counted(seen + [row], roster,
                    if row.customer in roster then placed[row.customer := Slot(row.route, row.position)] else placed)
  {
    assert forall p :: p in seen + [row] <==> p in seen || p == row;
    assert forall c :: HasPlace(seen + [row], c) <==> HasPlace(seen, c) || c == row.customer;
  }

  ghost predicate AllCovered(seen: seq<Place>, lastPosition: seq<int>) {
    forall r :: 0 <= r < |lastPosition| ==> Covers(seen, r, lastPosition[r])
  }

  /** The highest position on the route, or 0 where there is none above it. */
  ghost predicate EndsAt(places: seq<Place>, r: Route, last: int) {
    && last >= 0 && (last == 0 || HasPosition(places, r, last))
    && forall i :: 0 <= i < |places| && places[i].route == r ==> places[i].position <= last
  }

  ghost predicate HasPosition(places: seq<Place>, r: Route, position: int) {
    exists i :: 0 <= i < |places| && places[i].route == r && places[i].position == position
  }

  ghost predicate AllEnd(places: seq<Place>, lastPosition: seq<int>) {
    forall r :: 0 <= r < |lastPosition| ==> EndsAt(places, r, lastPosition[r])
  }

  lemma EndsCover(places: seq<Place>, lastPosition: seq<int>)
    requires AllEnd(places, lastPosition)
    ensures AllCovered(places, lastPosition)
  {
    forall r | 0 <= r < |lastPosition|
      ensures Covers(places, r, lastPosition[r])
    {
      assert EndsAt(places, r, lastPosition[r]);
    }
  }

  lemma EndsStep(places: seq<Place>, row: Place, r: Route, last: int)
    requires EndsAt(places, r, last)
    ensures EndsAt(places + [row], r, if row.route == r && row.position > last then row.position else last)
  {
    var more := places + [row];
    if HasPosition(places, r, last) {
      var i :| 0 <= i < |places| && places[i].route == r && places[i].position == last;
      assert more[i] == places[i];
    }
    assert more[|places|] == row;
  }

  lemma AllEndStep(places: seq<Place>, row: Place, was: seq<int>, now: seq<int>)
    requires AllEnd(places, was) && row.route < |was|
    requires now == was[row.route := if row.position > was[row.route] then row.position else was[row.route]]
    ensures AllEnd(places + [row], now)
  {
    forall r | 0 <= r < |now|
      ensures EndsAt(places + [row], r, now[r])
    {
      EndsStep(places, row, r, was[r]);
    }
  }

  ghost predicate SizesOf(sizes: seq<int>, placed: map<Customer, Slot>) {
    forall r :: 0 <= r < |sizes| ==> sizes[r] == Size(RoutesOf(placed), r)
  }

  /** The first loop's body: the route ends no earlier than this place, and a roster customer counts on it. */
  method CountRow(row: Place, roster: seq<Customer>, sizes: array<int>, lastPosition: array<int>,
      placed: map<Customer, Slot>, ghost seen: seq<Place>)
    returns (next: map<Customer, Slot>)
    requires sizes != lastPosition && row.route < sizes.Length == lastPosition.Length
    requires Counted(seen, roster, placed) && AllEnd(seen, lastPosition[..])
    modifies sizes, lastPosition
    ensures Counted(seen + [row], roster, next) && AllEnd(seen + [row], lastPosition[..])
    ensures old(SizesOf(sizes[..], placed)) && row.customer !in placed ==> SizesOf(sizes[..], next)
  {
    CountedStep(seen, row, roster, placed);
    ghost var was := lastPosition[..];
    lastPosition[row.route] := if row.position > lastPosition[row.route] then row.position else lastPosition[row.route];
    AllEndStep(seen, row, was, lastPosition[..]);
    if row.customer !in roster { return placed; }
    next := placed[row.customer := Slot(row.route, row.position)];
    sizes[row.route] := sizes[row.route] + 1;
    if row.customer !in placed { PlacingGrowsOne(placed, row.customer, Slot(row.route, row.position)); }
  }

  /** The first loop: who is placed already, how long the routes are and where they end. */
  method CountExisting(routes: nat, existing: seq<Place>, roster: seq<Customer>, sizes: array<int>,
      lastPosition: array<int>)
    returns (placed: map<Customer, Slot>)
    requires sizes != lastPosition && sizes.Length == lastPosition.Length == routes
    requires forall p :: p in existing ==> p.route < routes
    requires forall r :: 0 <= r < routes ==> sizes[r] == 0 && lastPosition[r] == 0
    modifies sizes, lastPosition
    ensures Counted(existing, roster, placed) && AllEnd(existing, lastPosition[..])
    ensures OnOneRoute(existing, roster) ==> SizesOf(sizes[..], placed)
  {
    placed := map[];
    for i := 0 to |existing|
      invariant Counted(existing[..i], roster, placed) && AllEnd(existing[..i], lastPosition[..])
      invariant OnOneRoute(existing, roster) ==> SizesOf(sizes[..], placed)
    {
      assert existing[..i + 1] == existing[..i] + [existing[i]];
      if OnOneRoute(existing, roster) { FirstPlace(existing, roster, i, placed); }
      placed := CountRow(existing[i], roster, sizes, lastPosition, placed, existing[..i]);
    }
    assert existing[..|existing|] == existing;
  }

  lemma FirstPlace(existing: seq<Place>, roster: seq<Customer>, i: nat, placed: map<Customer, Slot>)
    requires OnOneRoute(existing, roster) && i < |existing| && Counted(existing[..i], roster, placed)
    ensures existing[i].customer !in placed
  {
  }

  lemma PlacingGrowsOne(placed: map<Customer, Slot>, c: Customer, slot: Slot)
    requires c !in placed
    ensures forall r ::
      Size(RoutesOf(placed[c := slot]), r) == Size(RoutesOf(placed), r) + if r == slot.route then 1 else 0
  {
    forall r
      ensures Size(RoutesOf(placed[c := slot]), r) == Size(RoutesOf(placed), r) + if r == slot.route then 1 else 0
    {
      var before, after := Members(RoutesOf(placed), r), Members(RoutesOf(placed[c := slot]), r);
      assert after == if r == slot.route then before + {c} else before;
    }
  }

  /** Who had a place to begin with, and where. */
  ghost function Starting(placed: map<Customer, Slot>, existing: seq<Place>): Assignment {
    map c | c in placed && HasPlace(existing, c) :: placed[c].route
  }

  /** Additions fill each route upwards. */
  ghost predicate Upwards(additions: seq<Place>) {
    forall i, j :: 0 <= i < j < |additions| ==>
      additions[i].customer != additions[j].customer
      && (additions[i].route == additions[j].route ==> additions[i].position < additions[j].position)
  }

  /** Everyone placed is on their old slot or added once, past every place there was and in order. */
  ghost predicate Laid(existing: seq<Place>, additions: seq<Place>, placed: map<Customer, Slot>, routes: nat) {
    && (forall c :: c in placed ==> placed[c].route < routes)
    && (forall c :: c in placed ==> Keeps(placed, existing, c) || Keeps(placed, additions, c))
    && (forall a :: a in additions ==> a.customer in placed && placed[a.customer] == Slot(a.route, a.position))
    && (forall a, p :: a in additions && p in existing ==> Beyond(a, p))
    && Upwards(additions)
  }

  /** The addition takes exactly the position after the highest on its route by then. */
  ghost predicate NextUp(existing: seq<Place>, additions: seq<Place>, i: nat)
    requires i < |additions|
  {
    EndsAt(existing + additions[..i], additions[i].route, additions[i].position - 1)
  }

  ghost predicate InTurn(existing: seq<Place>, additions: seq<Place>) {
    forall i :: 0 <= i < |additions| ==> NextUp(existing, additions, i)
  }

  lemma InTurnStep(existing: seq<Place>, additions: seq<Place>, added: Place, was: seq<int>, now: seq<int>)
    requires InTurn(existing, additions) && AllEnd(existing + additions, was) && added.route < |was|
    requires added.position == was[added.route] + 1 && now == was[added.route := added.position]
    ensures InTurn(existing, additions + [added]) && AllEnd(existing + (additions + [added]), now)
  {
    var more := additions + [added];
    forall i | 0 <= i < |more|
      ensures NextUp(existing, more, i)
    {
      if i < |additions| {
        assert NextUp(existing, additions, i) && more[..i] == additions[..i];
      } else {
        assert more[..i] == additions;
      }
    }
    AllEndStep(existing + additions, added, was, now);
    assert existing + more == existing + additions + [added];
  }

  /** The bookkeeping of the second loop. */
  ghost predicate Filled(existing: seq<Place>, additions: seq<Place>, placed: map<Customer, Slot>,
      lastPosition: seq<int>)
  {
    && Laid(existing, additions, placed, |lastPosition|)
    && AllCovered(existing, lastPosition) && AllCovered(additions, lastPosition)
  }

  /** An addition is for someone else, and if on the same route, after it. */
  predicate Beyond(addition: Place, place: Place) {
    addition.customer != place.customer && (addition.route == place.route ==> addition.position > place.position)
  }

  lemma FilledStep(existing: seq<Place>, additions: seq<Place>, placed: map<Customer, Slot>, lastPosition: seq<int>,
      c: Customer, r: Route)
    requires Filled(existing, additions, placed, lastPosition)
    requires c !in placed && !HasPlace(existing, c) && r < |lastPosition|
    ensures var position := lastPosition[r] + 1;
      Filled(existing, additions + [Place(r, c, position)], placed[c := Slot(r, position)], lastPosition[r := position])
  {
    var added := Place(r, c, lastPosition[r] + 1);
    var more, next := additions + [added], placed[c := Slot(r, added.position)];
    assert forall a :: a in more <==> a in additions || a == added;
    forall x | x in next
      ensures Keeps(next, existing, x) || Keeps(next, more, x)
    {
      if x != c { assert Keeps(placed, existing, x) || Keeps(placed, additions, x); }
    }
    forall i | 0 <= i < |additions|
      ensures additions[i].customer != c && (additions[i].route == r ==> additions[i].position < added.position)
    {
      assert additions[i] in additions;
    }
  }

  /** Placing on a smallest route keeps the routes balanced. */
  lemma BalancedStep(before: Assignment, placed: map<Customer, Slot>, c: Customer, slot: Slot, routes: nat)
    requires Balanced(before, RoutesOf(placed), routes) && c !in placed && slot.route < routes
    requires forall k :: 0 <= k < routes ==> Size(RoutesOf(placed), slot.route) <= Size(RoutesOf(placed), k)
    ensures Balanced(before, RoutesOf(placed[c := slot]), routes)
  {
    PlacingGrowsOne(placed, c, slot);
    var was, now := RoutesOf(placed), RoutesOf(placed[c := slot]);
    forall r | 0 <= r < routes && Size(now, r) != Size(before, r)
      ensures AtMostOneMore(now, r, routes)
    {
      if r != slot.route { assert AtMostOneMore(was, r, routes); }
      forall k | 0 <= k < routes
        ensures Size(now, r) - 1 <= Size(now, k)
      {
        assert Size(was, slot.route) <= Size(was, k);
      }
    }
  }

  lemma BalancedIsBest(before: Assignment, after: Assignment, routes: nat)
    requires Balanced(before, after, routes) && Extends(before, after) && Within(after, routes)
    ensures BestPossible(before, after, routes)
  {
    forall other: Assignment, r: Route |
      r < routes && Within(other, routes) && Extends(before, other) && other.Keys == after.Keys
      ensures NotAboveAll(after, r, other, routes)
    {
      LargestIsLeast(before, after, other, routes, r);
    }
  }

  /** One customer goes to the first of the shortest routes, after everyone there. */
  method PlaceOne(customer: Customer, sizes: array<int>, lastPosition: array<int>) returns (slot: Slot)
    requires sizes != lastPosition && sizes.Length == lastPosition.Length > 0
    modifies sizes, lastPosition
    ensures slot.route < sizes.Length
    ensures slot.position == old(lastPosition[slot.route]) + 1
    ensures forall k :: 0 <= k < sizes.Length ==> old(sizes[slot.route]) <= old(sizes[k])
    ensures forall k :: 0 <= k < slot.route ==> old(sizes[slot.route]) < old(sizes[k])
    ensures sizes[..] == old(sizes[..])[slot.route := old(sizes[slot.route]) + 1]
    ensures lastPosition[..] == old(lastPosition[..])[slot.route := slot.position]
  {
    var routeIndex := IndexOf(sizes[..], Min(sizes[..]));
    assert forall k :: 0 <= k < sizes.Length ==> sizes[..][k] in sizes[..];
    assert forall k :: 0 <= k < routeIndex ==> sizes[..routeIndex][k] in sizes[..routeIndex];
    lastPosition[routeIndex] := lastPosition[routeIndex] + 1;
    sizes[routeIndex] := sizes[routeIndex] + 1;
    return Slot(routeIndex, lastPosition[routeIndex]);
  }

  /** Everyone with a place has kept it, and so far everyone in `seen` is placed. */
  ghost predicate Placed(existing: seq<Place>, roster: seq<Customer>, seen: seq<Customer>, before: Assignment,
      placed: map<Customer, Slot>)
  {
    && (forall c :: c in placed <==> (c in roster && HasPlace(existing, c)) || c in seen)
    && (forall c :: c in placed && HasPlace(existing, c) ==> Keeps(placed, existing, c))
    && before == Starting(placed, existing)
  }

  lemma PlacedStep(existing: seq<Place>, roster: seq<Customer>, seen: seq<Customer>, before: Assignment,
      placed: map<Customer, Slot>, c: Customer, slot: Slot)
    requires Placed(existing, roster, seen, before, placed) && c in roster && c !in placed
    ensures Placed(existing, roster, seen + [c], before, placed[c := slot])
  {
    var next := placed[c := slot];
    forall x | x in next && HasPlace(existing, x)
      ensures Keeps(next, existing, x)
    {
      assert Keeps(placed, existing, x);
    }
    assert Starting(next, existing) == Starting(placed, existing);
  }

  ghost predicate Even(before: Assignment, placed: map<Customer, Slot>, sizes: seq<int>) {
    SizesOf(sizes, placed) && Balanced(before, RoutesOf(placed), |sizes|)
  }

  lemma EvenStep(before: Assignment, placed: map<Customer, Slot>, sizes: seq<int>, c: Customer, slot: Slot)
    requires Even(before, placed, sizes) && c !in placed && slot.route < |sizes|
    requires forall k :: 0 <= k < |sizes| ==> sizes[slot.route] <= sizes[k]
    ensures Even(before, placed[c := slot], sizes[slot.route := sizes[slot.route] + 1])
  {
    BalancedStep(before, placed, c, slot, |sizes|);
    PlacingGrowsOne(placed, c, slot);
  }

  lemma EvenIsBest(existing: seq<Place>, roster: seq<Customer>, before: Assignment, placed: map<Customer, Slot>,
      sizes: seq<int>)
    requires Placed(existing, roster, roster, before, placed) && Even(before, placed, sizes)
    requires forall c :: c in placed ==> placed[c].route < |sizes|
    ensures BestPossible(Starting(placed, existing), RoutesOf(placed), |sizes|)
  {
    BalancedIsBest(before, RoutesOf(placed), |sizes|);
  }

  /** The second loop's body, for a customer not placed yet. */
  method Add(customer: Customer, sizes: array<int>, lastPosition: array<int>, ghost placed: map<Customer, Slot>,
             ghost additions: seq<Place>, ghost existing: seq<Place>, ghost before: Assignment, ghost single: bool)
    returns (slot: Slot)
    requires sizes != lastPosition && sizes.Length == lastPosition.Length > 0
    requires customer !in placed && !HasPlace(existing, customer)
    requires Filled(existing, additions, placed, lastPosition[..])
    requires InTurn(existing, additions) && AllEnd(existing + additions, lastPosition[..])
    requires single ==> Even(before, placed, sizes[..])
    modifies sizes, lastPosition
    ensures Filled(existing, additions + [Place(slot.route, customer, slot.position)],
      placed[customer := slot], lastPosition[..])
    ensures InTurn(existing, additions + [Place(slot.route, customer, slot.position)])
    ensures AllEnd(existing + (additions + [Place(slot.route, customer, slot.position)]), lastPosition[..])
    ensures single ==> Even(before, placed[customer := slot], sizes[..])
  {
    ghost var oldSizes, oldLast := sizes[..], lastPosition[..];
    slot := PlaceOne(customer, sizes, lastPosition);
    FilledStep(existing, additions, placed, oldLast, customer, slot.route);
    InTurnStep(existing, additions, Place(slot.route, customer, slot.position), oldLast, lastPosition[..]);
    if single { EvenStep(before, placed, oldSizes, customer, slot); }
  }

  method AssignRoutes(routes: nat, existing: seq<Place>, roster: seq<Customer>)
    returns (placed: map<Customer, Slot>, additions: seq<Place>)
    requires routes > 0
    requires forall p :: p in existing ==> p.route < routes
    ensures forall c :: c in placed <==> c in roster
    ensures forall c :: c in placed && HasPlace(existing, c) ==> Keeps(placed, existing, c)
    ensures Laid(existing, additions, placed, routes) && InTurn(existing, additions)
    ensures OnOneRoute(existing, roster) ==> BestPossible(Starting(placed, existing), RoutesOf(placed), routes)
  {
    var sizes := new int[routes](_ => 0);
    var lastPosition := new int[routes](_ => 0);
    placed := CountExisting(routes, existing, roster, sizes, lastPosition);
    additions := [];
    assert existing + additions == existing;
    EndsCover(existing, lastPosition[..]);
    ghost var before := RoutesOf(placed);
    ghost var single := OnOneRoute(existing, roster);
    for i := 0 to |roster|
      invariant Placed(existing, roster, roster[..i], before, placed)
      invariant Filled(existing, additions, placed, lastPosition[..])
      invariant InTurn(existing, additions) && AllEnd(existing + additions, lastPosition[..])
      invariant single ==> Even(before, placed, sizes[..])
    {
      var customer := roster[i];
      assert roster[..i + 1] == roster[..i] + [customer];
      if customer in placed { continue; }
      var slot := Add(customer, sizes, lastPosition, placed, additions, existing, before, single);
      PlacedStep(existing, roster, roster[..i], before, placed, customer, slot);
      placed := placed[customer := slot];
      additions := additions + [Place(slot.route, customer, slot.position)];
    }
    assert roster[..|roster|] == roster;
    if single { EvenIsBest(existing, roster, before, placed, sizes[..]); }
  }
}
