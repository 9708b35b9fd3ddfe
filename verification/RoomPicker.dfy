/** The group room picker's guests (apps/booking-web/lib/roomPicker.ts, first half): how a party is
spread over rooms, when a spread fits, and how adults move between rooms. */
module RoomPicker {
  import opened Runs
  import opened StableSort

  datatype RoomGuests = RoomGuests(adults: int, children: int)
  datatype Occupancy = Unknown | Limits(maxGuests: int, maxAdults: int, maxChildren: int)

  const MAX_ROOMS := 9

  function Max(a: int, b: int): int { if a < b then b else a }
  function Min(a: int, b: int): int { if a < b then a else b }

  function MostRooms(adults: int, fewest: int): int {
    Max(1, Min(Min(adults, MAX_ROOMS), Max(4, fewest)))
  }

  function RoomCount(adults: int, rooms: int): (n: nat)
    ensures n >= 1
  {
    Max(1, Min(rooms, adults))
  }

  function EvenSplit(adults: int, rooms: int): (split: seq<int>)
    ensures |split| == RoomCount(adults, rooms)
  {
    var count := RoomCount(adults, rooms);
    seq(count, i => adults / count + (if i < adults % count then 1 else 0))
  }

  function FitsRoom(limits: Occupancy, guests: RoomGuests): bool {
    && guests.adults >= 1
    && (limits.Unknown? ||
        (&& guests.adults <= limits.maxAdults
         && guests.children <= limits.maxChildren
         && guests.adults + guests.children <= limits.maxGuests))
  }

  // ----- sums -----

  function Sum(s: seq<int>): int {
    if s == [] then 0 else Sum(s[..|s| - 1]) + s[|s| - 1]
  }

  lemma {:induction false} SumUpdate(s: seq<int>, i: nat, v: int)
    requires i < |s|
    ensures Sum(s[i := v]) == Sum(s) - s[i] + v
  {
    var n := |s| - 1;
    if i == n {
      assert s[i := v][..n] == s[..n];
    } else {
      SumUpdate(s[..n], i, v);
      assert s[i := v][..n] == s[..n][i := v];
    }
  }

  lemma {:induction false} SumBounds(s: seq<int>, low: int, high: int)
    requires forall i :: 0 <= i < |s| ==> low <= s[i] <= high
    ensures |s| * low <= Sum(s) <= |s| * high
  {
    if s != [] {
      SumBounds(s[..|s| - 1], low, high);
      assert |s| * low == (|s| - 1) * low + low && |s| * high == (|s| - 1) * high + high;
    }
  }

  lemma {:induction false} SumMonotone(s: seq<int>, t: seq<int>)
    requires |s| == |t| && forall i :: 0 <= i < |s| ==> s[i] <= t[i]
    ensures Sum(s) <= Sum(t)
  {
    if s != [] { SumMonotone(s[..|s| - 1], t[..|s| - 1]); }
  }

  lemma {:induction false} SumOfSums(s: seq<int>, t: seq<int>, u: seq<int>)
    requires |s| == |t| == |u| && forall i :: 0 <= i < |s| ==> u[i] == s[i] + t[i]
    ensures Sum(u) == Sum(s) + Sum(t)
  {
    if s != [] { SumOfSums(s[..|s| - 1], t[..|s| - 1], u[..|s| - 1]); }
  }

  /** A split the picker shows: at least one adult in every room. */
  ghost predicate Split(s: seq<int>) { forall i :: 0 <= i < |s| ==> s[i] >= 1 }

  /** Any two entries differ by at most one. */
  ghost predicate Balanced(s: seq<int>) {
    forall i, j :: 0 <= i < |s| && 0 <= j < |s| ==> s[i] <= s[j] + 1
  }

  /** A balanced sequence has the least possible maximum for its sum. */
  lemma BalancedIsLowest(s: seq<int>, other: seq<int>, m: int)
    requires Balanced(s) && |s| == |other| && Sum(s) == Sum(other)
    requires forall i :: 0 <= i < |other| ==> other[i] <= m
    ensures forall i :: 0 <= i < |s| ==> s[i] <= m
  {
    if i :| 0 <= i < |s| && s[i] > m {
      var rest := s[i := m];
      forall k | 0 <= k < |rest| ensures m <= rest[k] { assert s[i] <= s[k] + 1; }
      SumUpdate(s, i, m);
      var floor := seq(|s|, k => m);
      SumMonotone(floor, rest);
      SumMonotone(other, floor);
      assert false;
    }
  }

  // ----- evenSplit -----

  lemma {:induction false} SumOfFirst(q: int, r: nat, k: nat)
    ensures Sum(seq(k, i => q + (if i < r then 1 else 0))) == k * q + Min(k, r)
  {
    if k > 0 {
      SumOfFirst(q, r, k - 1);
      var s := seq(k, i => q + (if i < r then 1 else 0));
      assert s[..k - 1] == seq(k - 1, i => q + (if i < r then 1 else 0));
      assert k * q == (k - 1) * q + q;
    }
  }

  lemma OneEach(adults: int, n: nat)
    requires 1 <= n <= adults
    ensures adults / n >= 1
  {
    var q := adults / n;
    assert adults == n * q + adults % n;
    assert q <= 0 ==> n * q <= 0;
  }

  /** Every adult is in exactly one room, rooms differ by at most one adult, first rooms take more. */
  lemma {:induction false} EvenSplitSpreads(adults: int, rooms: int)
    ensures Sum(EvenSplit(adults, rooms)) == adults
    ensures Balanced(EvenSplit(adults, rooms))
    ensures forall i, j :: 0 <= i < j < |EvenSplit(adults, rooms)| ==> EvenSplit(adults, rooms)[j] <= EvenSplit(adults, rooms)[i]
    ensures adults >= 1 ==> Split(EvenSplit(adults, rooms))
  {
    var n := RoomCount(adults, rooms);
    var q, r := adults / n, adults % n;
    SumOfFirst(q, r, n);
    var s := EvenSplit(adults, rooms);
    assert s == seq(n, i => q + (if i < r then 1 else 0));
    assert adults == n * q + r;
    if adults >= 1 { OneEach(adults, n); }
  }

  /** One room always; more with an adult for each, up to nine, and past four only when the group needs them. */
  predicate Offerable(n: int, adults: int, fewest: int) { n <= 1 || (n <= adults && n <= 9 && (n <= 4 || n <= fewest)) }

  /** Every room count the picker offers gives that many rooms, each with an adult. */
  lemma MostRoomsUsable(adults: int, fewest: int)
    ensures forall n: int :: Offerable(n, adults, fewest) <==> n <= MostRooms(adults, fewest)
    ensures adults >= 1 ==>
              && |EvenSplit(adults, MostRooms(adults, fewest))| == MostRooms(adults, fewest)
              && Split(EvenSplit(adults, MostRooms(adults, fewest)))
  {
    EvenSplitSpreads(adults, MostRooms(adults, fewest));
  }

  // ----- roomGuests -----

  /** Room i takes its next child before room j does: fewer adults first, then the later room. */
  predicate FillsBefore(adults: seq<int>, i: nat, j: nat)
    requires i < |adults| && j < |adults|
  {
    adults[i] < adults[j] || (adults[i] == adults[j] && j < i)
  }

  /** Children dealt one at a time in the filling order, round after round. */
  ghost predicate DealtInOrder(adults: seq<int>, kids: seq<int>) {
    && |kids| == |adults|
    && forall i, j :: 0 <= i < |adults| && 0 <= j < |adults| && FillsBefore(adults, i, j) ==>
                        kids[j] <= kids[i] <= kids[j] + 1
  }

  function Indices(n: nat): seq<nat> { seq(n, i => i) }

  function FillLeq(adults: seq<int>): (nat, nat) -> bool {
    (a: nat, b: nat) => if a < |adults| && b < |adults| then !FillsBefore(adults, b, a) else a < |adults| || b >= |adults|
  }

  lemma FillOrderIsPreorder(adults: seq<int>)
    ensures TotalPreorder(FillLeq(adults))
  {
  }

  lemma RepeatsCount<T>(s: seq<T>, k: nat, l: nat)
    requires k < l < |s| && s[k] == s[l]
    ensures multiset(s)[s[k]] >= 2
  {
    assert s == s[..l] + [s[l]] + s[l + 1..];
    assert s[k] in s[..l];
    assert multiset(s[..l])[s[k]] >= 1;
    assert multiset(s) == multiset(s[..l]) + multiset([s[l]]) + multiset(s[l + 1..]);
  }

  lemma {:induction false} IndicesDistinct(n: nat, i: nat)
    requires i < n
    ensures multiset(Indices(n))[i] == 1
  {
    var before := Indices(n - 1);
    assert Indices(n) == before + [n - 1];
    if i < n - 1 {
      IndicesDistinct(n - 1, i);
    } else {
      assert i !in before;
    }
  }

  function Kids(rooms: seq<RoomGuests>): seq<int> {
    seq(|rooms|, i requires 0 <= i < |rooms| => rooms[i].children)
  }

  function Adults(rooms: seq<RoomGuests>): seq<int> {
    seq(|rooms|, i requires 0 <= i < |rooms| => rooms[i].adults)
  }

  function Totals(rooms: seq<RoomGuests>): seq<int> {
    seq(|rooms|, i requires 0 <= i < |rooms| => rooms[i].adults + rooms[i].children)
  }

  function Zeros(n: nat): (s: seq<int>)
    ensures |s| == n && Sum(s) == 0
    ensures forall i :: 0 <= i < n ==> s[i] == 0
  {
    if n == 0 then [] else Zeros(n - 1) + [0]
  }

  /** Where the deal stands after `child` children over n rooms: full rounds, and rooms into the next. */
  ghost function Standing(child: nat, n: nat): (p: (nat, nat))
    requires n > 0
    ensures p.1 < n
  {
    if child == 0 then (0, 0)
    else
      var (round, at) := Standing(child - 1, n);
      if at + 1 == n then (round + 1, 0) else (round, at + 1)
  }

  lemma RemainderIs(c: nat, n: nat, q: nat, r: nat)
    requires r < n && c == q * n + r
    ensures c % n == r
  {
    var q', r' := c / n, c % n;
    assert c == q' * n + r';
    assert q' < q ==> (q' + 1) * n <= q * n;
    assert q' > q ==> (q + 1) * n <= q' * n;
  }

  lemma {:induction false} StandingIsProduct(child: nat, n: nat)
    requires n > 0
    ensures child == Standing(child, n).0 * n + Standing(child, n).1
  {
    if child > 0 {
      StandingIsProduct(child - 1, n);
      var round := Standing(child - 1, n).0;
      assert (round + 1) * n == round * n + n;
    }
  }

  lemma StandingIsRemainder(child: nat, n: nat)
    requires n > 0
    ensures child % n == Standing(child, n).1
  {
    StandingIsProduct(child, n);
    RemainderIs(child, n, Standing(child, n).0, Standing(child, n).1);
  }

  ghost predicate Listed(order: seq<nat>, i: nat) { i in order }

  /** The rooms in filling order, each exactly once. */
  ghost predicate IsFillOrder(adults: seq<int>, order: seq<nat>) {
    && |order| == |adults|
    && (forall k :: 0 <= k < |order| ==> order[k] < |adults|)
    && (forall k, l :: 0 <= k < l < |order| ==> FillsBefore(adults, order[k], order[l]))
    && (forall i: nat :: i < |adults| ==> Listed(order, i))
  }

  /** The order the code sorts the rooms into is the filling order. */
  lemma FillOrder(adults: seq<int>)
    ensures IsFillOrder(adults, Sort(Indices(|adults|), FillLeq(adults)))
  {
    var all := Indices(|adults|);
    FillOrderIsPreorder(adults);
    var order := Sort(all, FillLeq(adults));
    SortPermutes(all, FillLeq(adults));
    SortOrdered(all, FillLeq(adults));
    SameElements(order, all);
    forall k | 0 <= k < |order| ensures order[k] < |adults| { assert order[k] in order; }
    forall i: nat | i < |adults| ensures Listed(order, i) { assert all[i] == i; }
    forall k, l | 0 <= k < l < |order| ensures FillsBefore(adults, order[k], order[l]) {
      if order[k] == order[l] {
        RepeatsCount(order, k, l);
        IndicesDistinct(|adults|, order[k]);
      } else {
        assert FillLeq(adults)(order[k], order[l]);
      }
    }
  }

  /** The deal is at position `at` of a round. */
  ghost predicate DealtUpTo(order: seq<nat>, kids: seq<int>, round: int, at: int) {
    && (forall k :: 0 <= k < |order| ==> order[k] < |kids|)
    && (forall k :: 0 <= k < |order| ==> kids[order[k]] == round + (if k < at then 1 else 0))
  }

  lemma DealtByOrder(adults: seq<int>, order: seq<nat>, kids: seq<int>, round: int, at: int)
    requires IsFillOrder(adults, order) && |kids| == |adults| && DealtUpTo(order, kids, round, at)
    ensures DealtInOrder(adults, kids)
  {
    forall i: nat, j: nat | i < |adults| && j < |adults| && FillsBefore(adults, i, j)
      ensures kids[j] <= kids[i] <= kids[j] + 1
    {
      assert Listed(order, i) && Listed(order, j);
      var k: nat :| k < |order| && order[k] == i;
      var l: nat :| l < |order| && order[l] == j;
    }
  }

  /** The next child goes to the next room of the order. */
  lemma DealOne(adults: seq<int>, order: seq<nat>, kids: seq<int>, child: nat)
    requires IsFillOrder(adults, order) && |kids| == |adults| && order != []
    requires var (round, at) := Standing(child, |order|); DealtUpTo(order, kids, round, at)
    ensures var room := order[child % |order|];
            && room < |kids|
            && Sum(kids[room := kids[room] + 1]) == Sum(kids) + 1
            && var (round, at) := Standing(child + 1, |order|);
               DealtUpTo(order, kids[room := kids[room] + 1], round, at)
  {
    var (round, at) := Standing(child, |order|);
    StandingIsRemainder(child, |order|);
    SumUpdate(kids, order[at], kids[order[at]] + 1);
    forall k | 0 <= k < |order| && k != at ensures order[k] != order[at] {
      assert if k < at then FillsBefore(adults, order[k], order[at]) else FillsBefore(adults, order[at], order[k]);
    }
  }

  ghost predicate Dealt(order: seq<nat>, kids: seq<int>, child: nat)
    requires order != []
  {
    var (round, at) := Standing(child, |order|);
    DealtUpTo(order, kids, round, at)
  }

  /** The dealing loop of `roomGuests`: one child after the other, around the order. */
  method Deal(adults: seq<int>, order: seq<nat>, children: nat) returns (kids: seq<int>)
    requires IsFillOrder(adults, order) && order != []
    ensures |kids| == |adults| && Dealt(order, kids, children)
    ensures Sum(kids) == children
  {
    kids := Zeros(|adults|);
    for child := 0 to children
      invariant |kids| == |adults| && Sum(kids) == child
      invariant Dealt(order, kids, child)
    {
      DealOne(adults, order, kids, child);
      var room := order[child % |order|];
      kids := kids[room := kids[room] + 1];
    }
  }

  /** `roomGuests`: the adults as they are, the children dealt in the sorted order of the rooms. */
  method DealChildren(adults: seq<int>, children: int) returns (rooms: seq<RoomGuests>)
    ensures Adults(rooms) == adults
    ensures DealtInOrder(adults, Kids(rooms))
    ensures adults != [] ==> Sum(Kids(rooms)) == Max(0, children)
  {
    if adults == [] { return []; }
    FillOrder(adults);
    var order := Sort(Indices(|adults|), FillLeq(adults));
    var kids := Deal(adults, order, Max(0, children));
    ghost var p := Standing(Max(0, children), |order|);
    DealtByOrder(adults, order, kids, p.0, p.1);
    rooms := seq(|adults|, i requires 0 <= i < |adults| => RoomGuests(adults[i], kids[i]));
    assert Kids(rooms) == kids && Adults(rooms) == adults;
  }

  /** The contract of the deal leaves no choice: the same children in order means the same rooms. */
  lemma DealtUnique(adults: seq<int>, x: seq<int>, y: seq<int>)
    requires DealtInOrder(adults, x) && DealtInOrder(adults, y) && Sum(x) == Sum(y)
    ensures x == y
  {
    if a :| 0 <= a < |x| && x[a] > y[a] {
      OneAbove(adults, x, y, a);
    } else if a :| 0 <= a < |x| && y[a] > x[a] {
      OneAbove(adults, y, x, a);
    }
  }

  lemma OneAbove(adults: seq<int>, x: seq<int>, y: seq<int>, a: nat)
    requires DealtInOrder(adults, x) && DealtInOrder(adults, y)
    requires a < |x| && x[a] > y[a]
    ensures Sum(x) > Sum(y)
  {
    forall b | 0 <= b < |x| ensures x[b] >= y[b] {
      if b != a { assert FillsBefore(adults, a, b) || FillsBefore(adults, b, a); }
    }
    SumUpdate(x, a, x[a] - 1);
    SumMonotone(y, x[a := x[a] - 1]);
  }

  // ----- splitParty -----

  /** A way to place a party in n rooms: an adult in each, everyone placed. */
  ghost predicate Placement(rooms: seq<RoomGuests>, adults: int, children: int, n: nat) {
    && |rooms| == n
    && Sum(Adults(rooms)) == adults && Sum(Kids(rooms)) == children
    && forall i :: 0 <= i < n ==> rooms[i].adults >= 1
  }

  /** Every room of the placement has an adult and is within the same limits, where they are known. */
  ghost predicate AllFit(limits: Occupancy, rooms: seq<RoomGuests>) {
    forall i :: 0 <= i < |rooms| ==>
      && rooms[i].adults >= 1
      && (limits.Limits? ==>
           && rooms[i].adults <= limits.maxAdults
           && rooms[i].children <= limits.maxChildren
           && rooms[i].adults + rooms[i].children <= limits.maxGuests)
  }

  /** That is what `fitsRoom` says of each room. */
  lemma AllFitIsEachFits(limits: Occupancy, rooms: seq<RoomGuests>)
    ensures AllFit(limits, rooms) <==> forall i :: 0 <= i < |rooms| ==> FitsRoom(limits, rooms[i])
  {
    if AllFit(limits, rooms) {
      forall i | 0 <= i < |rooms| ensures FitsRoom(limits, rooms[i]) { }
    }
  }

  /** An even split dealt in order is balanced in adults, in children and in guests. */
  lemma SplitIsBalanced(rooms: seq<RoomGuests>)
    requires Balanced(Adults(rooms)) && DealtInOrder(Adults(rooms), Kids(rooms))
    ensures Balanced(Kids(rooms)) && Balanced(Totals(rooms))
  {
    var adults, kids := Adults(rooms), Kids(rooms);
    forall i, j | 0 <= i < |rooms| && 0 <= j < |rooms|
      ensures kids[i] <= kids[j] + 1 && Totals(rooms)[i] <= Totals(rooms)[j] + 1
    {
      assert adults[i] <= adults[j] + 1 && adults[j] <= adults[i] + 1;
      if i != j { assert FillsBefore(adults, i, j) || FillsBefore(adults, j, i); }
    }
  }

  /** If any placement fits the limits, a balanced one does. */
  lemma BalancedFits(limits: Occupancy, rooms: seq<RoomGuests>, other: seq<RoomGuests>)
    requires Balanced(Adults(rooms)) && Balanced(Kids(rooms)) && Balanced(Totals(rooms))
    requires |rooms| == |other|
    requires Sum(Adults(rooms)) == Sum(Adults(other)) && Sum(Kids(rooms)) == Sum(Kids(other))
    requires forall i :: 0 <= i < |rooms| ==> rooms[i].adults >= 1
    requires AllFit(limits, other)
    ensures AllFit(limits, rooms)
  {
    if limits.Limits? {
      SumOfSums(Adults(rooms), Kids(rooms), Totals(rooms));
      SumOfSums(Adults(other), Kids(other), Totals(other));
      forall i | 0 <= i < |other|
        ensures Adults(other)[i] <= limits.maxAdults && Kids(other)[i] <= limits.maxChildren && Totals(other)[i] <= limits.maxGuests
      {
        assert FitsRoom(limits, other[i]);
      }
      BalancedIsLowest(Adults(rooms), Adults(other), limits.maxAdults);
      BalancedIsLowest(Kids(rooms), Kids(other), limits.maxChildren);
      BalancedIsLowest(Totals(rooms), Totals(other), limits.maxGuests);
      forall i | 0 <= i < |rooms| ensures FitsRoom(limits, rooms[i]) {
        assert Adults(rooms)[i] <= limits.maxAdults && Kids(rooms)[i] <= limits.maxChildren;
        assert Totals(rooms)[i] <= limits.maxGuests;
      }
    }
  }

  /** `splitParty`: conserves the party, spreads it evenly, and fits whenever anything fits. */
  method SplitParty(adults: int, children: int, rooms: int) returns (guests: seq<RoomGuests>)
    ensures |guests| == RoomCount(adults, rooms)
    ensures adults >= 1 ==> Placement(guests, adults, Max(0, children), RoomCount(adults, rooms))
    ensures Sum(Adults(guests)) == adults && Sum(Kids(guests)) == Max(0, children)
    ensures Balanced(Adults(guests)) && Balanced(Kids(guests)) && Balanced(Totals(guests))
    ensures forall limits, other ::
              Placement(other, adults, Max(0, children), RoomCount(adults, rooms)) && AllFit(limits, other) ==> AllFit(limits, guests)
  {
    guests := DealChildren(EvenSplit(adults, rooms), children);
    EvenSplitSpreads(adults, rooms);
    SplitIsBalanced(guests);
    assert forall i :: 0 <= i < |guests| ==> guests[i].adults == Adults(guests)[i];
    forall limits, other |
      Placement(other, adults, Max(0, children), RoomCount(adults, rooms)) && AllFit(limits, other)
      ensures AllFit(limits, guests)
    {
      if adults < 1 {
        SumBounds(Adults(other), 1, Max(1, Sum(Adults(other))));
      }
      BalancedFits(limits, guests, other);
    }
  }

  // ----- moveAdult -----

  function At(s: seq<int>, p: nat): int { if p < |s| then s[p] else 0 }

  function NotRoom(index: nat): nat -> bool { (p: nat) => p != index }

  function CanSpare(s: seq<int>): nat -> bool { (p: nat) => At(s, p) > 1 }

  function Others(s: seq<int>, index: nat): seq<nat> { Filter(Indices(|s|), NotRoom(index)) }

  /** Most adults first, the later room on a tie. */
  function MostFirst(s: seq<int>): (nat, nat) -> bool {
    (a: nat, b: nat) => At(s, a) > At(s, b) || (At(s, a) == At(s, b) && a >= b)
  }

  /** Fewest adults first, the earlier room on a tie. */
  function FewestFirst(s: seq<int>): (nat, nat) -> bool {
    (a: nat, b: nat) => At(s, a) < At(s, b) || (At(s, a) == At(s, b) && a <= b)
  }

  datatype Delta = More | Fewer

  /** The rooms that may give (or take) the adult, best first. */
  function Partners(s: seq<int>, index: nat, delta: Delta): seq<nat> {
    match delta
    case More => Sort(Filter(Others(s, index), CanSpare(s)), MostFirst(s))
    case Fewer => if At(s, index) > 1 then Sort(Others(s, index), FewestFirst(s)) else []
  }

  function Moved(s: seq<int>, index: nat, delta: Delta): seq<int>
    requires index < |s|
  {
    var partners := Partners(s, index, delta);
    if partners == [] || partners[0] >= |s| then s
    else
      var d := if delta.More? then 1 else -1;
      s[index := s[index] + d][partners[0] := s[index := s[index] + d][partners[0]] - d]
  }

  /** The room that gives an adult for "one more": the fullest other room with adults to spare, the last on a tie. */
  ghost predicate IsDonor(s: seq<int>, index: nat, p: nat) {
    && p < |s| && p != index && s[p] > 1
    && forall k: nat :: k < |s| && k != index && s[k] > 1 ==> s[p] > s[k] || (s[p] == s[k] && p >= k)
  }

  /** The room that takes an adult for "one fewer": the emptiest other room, the first on a tie. */
  ghost predicate IsTaker(s: seq<int>, index: nat, p: nat) {
    && p < |s| && p != index
    && forall k: nat :: k < |s| && k != index ==> s[p] < s[k] || (s[p] == s[k] && p <= k)
  }

  lemma OthersMembers(s: seq<int>, index: nat)
    ensures forall p: nat :: p in Others(s, index) <==> p < |s| && p != index
  {
    FilterMembers(Indices(|s|), NotRoom(index));
    forall p: nat ensures p in Indices(|s|) <==> p < |s| {
      if p < |s| { assert Indices(|s|)[p] == p; }
    }
  }

  lemma DonorsMembers(s: seq<int>, index: nat)
    ensures forall p: nat :: p in Filter(Others(s, index), CanSpare(s)) <==> p < |s| && p != index && s[p] > 1
  {
    OthersMembers(s, index);
    FilterMembers(Others(s, index), CanSpare(s));
  }

  lemma MostFirstIsPreorder(s: seq<int>)
    ensures TotalPreorder(MostFirst(s)) && TotalPreorder(FewestFirst(s))
  {
  }

  lemma PartnersForMore(s: seq<int>, index: nat)
    ensures Partners(s, index, More) == [] <==> forall p: nat :: p < |s| && p != index ==> s[p] <= 1
    ensures Partners(s, index, More) != [] ==> IsDonor(s, index, Partners(s, index, More)[0])
  {
    var spare := Filter(Others(s, index), CanSpare(s));
    DonorsMembers(s, index);
    SortPermutes(spare, MostFirst(s));
    if spare == [] {
      forall p: nat | p < |s| && p != index ensures s[p] <= 1 { assert p !in spare; }
    } else {
      assert spare[0] in spare;
      MostFirstIsPreorder(s);
      SortHead(spare, MostFirst(s));
      var p := Sort(spare, MostFirst(s))[0];
      forall k: nat | k < |s| && k != index && s[k] > 1 ensures s[p] > s[k] || (s[p] == s[k] && p >= k) {
        assert k in spare && MostFirst(s)(p, k);
      }
    }
  }

  lemma PartnersForFewer(s: seq<int>, index: nat)
    requires index < |s|
    ensures Partners(s, index, Fewer) == [] <==> s[index] <= 1 || |s| == 1
    ensures Partners(s, index, Fewer) != [] ==> IsTaker(s, index, Partners(s, index, Fewer)[0])
  {
    var others := Others(s, index);
    OthersMembers(s, index);
    SortPermutes(others, FewestFirst(s));
    if others == [] {
      assert (if index == 0 then 1 else 0) !in others;
    } else {
      assert others[0] in others;
      MostFirstIsPreorder(s);
      SortHead(others, FewestFirst(s));
      var p := Sort(others, FewestFirst(s))[0];
      forall k: nat | k < |s| && k != index ensures s[p] < s[k] || (s[p] == s[k] && p <= k) {
        assert k in others && FewestFirst(s)(p, k);
      }
    }
  }

  function Transfer(s: seq<int>, i: nat, p: nat, d: int): seq<int>
    requires i < |s| && p < |s|
  {
    s[i := s[i] + d][p := s[p] - d]
  }

  /** "One more" moves exactly when another room can spare an adult; then the donor gives it. */
  lemma MoreMoves(s: seq<int>, index: nat) returns (moves: bool, p: nat)
    requires index < |s|
    ensures moves <==> exists k: nat :: k < |s| && k != index && s[k] > 1
    ensures moves ==> IsDonor(s, index, p) && Moved(s, index, More) == Transfer(s, index, p, 1)
    ensures !moves ==> Moved(s, index, More) == s
  {
    PartnersForMore(s, index);
    moves := Partners(s, index, More) != [];
    p := if moves then Partners(s, index, More)[0] else 0;
  }

  /** "One fewer" moves exactly when the room has adults to spare and company; then the taker gets it. */
  lemma FewerMoves(s: seq<int>, index: nat) returns (moves: bool, p: nat)
    requires index < |s|
    ensures moves <==> s[index] > 1 && |s| > 1
    ensures moves ==> IsTaker(s, index, p) && Moved(s, index, Fewer) == Transfer(s, index, p, -1)
    ensures !moves ==> Moved(s, index, Fewer) == s
  {
    PartnersForFewer(s, index);
    moves := Partners(s, index, Fewer) != [];
    p := if moves then Partners(s, index, Fewer)[0] else 0;
  }

  lemma {:induction false} TransferKeeps(s: seq<int>, i: nat, p: nat, d: int)
    requires i < |s| && p < |s| && i != p
    ensures Sum(Transfer(s, i, p, d)) == Sum(s)
    ensures Split(s) && s[i] + d >= 1 && s[p] - d >= 1 ==> Split(Transfer(s, i, p, d))
  {
    SumUpdate(s, i, s[i] + d);
    SumUpdate(s[i := s[i] + d], p, s[p] - d);
  }

  /** No move loses an adult, a room, or a room's last adult. */
  lemma MovedKeeps(s: seq<int>, index: nat, delta: Delta)
    requires index < |s|
    ensures |Moved(s, index, delta)| == |s| && Sum(Moved(s, index, delta)) == Sum(s)
    ensures Split(s) ==> Split(Moved(s, index, delta))
  {
    if delta == More {
      var moves, p := MoreMoves(s, index);
      if moves { TransferKeeps(s, index, p, 1); }
    } else {
      var moves, p := FewerMoves(s, index);
      if moves { TransferKeeps(s, index, p, -1); }
    }
  }

  /** `moveAdult`: a copy is edited in two places, or nothing moves. */
  method MoveAdult(split: seq<int>, index: nat, delta: Delta) returns (next: seq<int>)
    requires index < |split|
    ensures next == Moved(split, index, delta)
    ensures |next| == |split| && Sum(next) == Sum(split)
    ensures Split(split) ==> Split(next)
  {
    MovedKeeps(split, index, delta);
    next := split;
    var partners := Partners(split, index, delta);
    if partners == [] || partners[0] >= |split| { return; }
    var other, d := partners[0], if delta.More? then 1 else -1;
    next := next[index := next[index] + d];
    next := next[other := next[other] - d];
  }

  // ----- every split is reachable -----

  datatype Move = Move(index: nat, delta: Delta)

  ghost function Tap(s: seq<int>, m: Move): seq<int> {
    if m.index < |s| then Moved(s, m.index, m.delta) else s
  }

  ghost function Play(s: seq<int>, moves: seq<Move>): seq<int> { Run(Tap, s, moves) }

  /** "One more" in room i takes the adult from room p when p is the only best donor. */
  lemma MoreTakesFrom(s: seq<int>, i: nat, p: nat)
    requires i < |s| && IsDonor(s, i, p)
    ensures Moved(s, i, More) == Transfer(s, i, p, 1)
  {
    var moves, first := MoreMoves(s, i);
    assert MostFirst(s)(first, p) && MostFirst(s)(p, first);
  }

  /** Gathering: "one more" in room m until every other room is down to one adult. */
  lemma {:induction false} Gather(s: seq<int>, m: nat) returns (moves: seq<Move>)
    requires Split(s) && m < |s|
    ensures |Play(s, moves)| == |s| && Split(Play(s, moves)) && Sum(Play(s, moves)) == Sum(s)
    ensures forall j :: 0 <= j < |s| && j != m ==> Play(s, moves)[j] == 1
    ensures |moves| == Play(s, moves)[m] - s[m]
    decreases Sum(s) - s[m]
  {
    var more, p := MoreMoves(s, m);
    if !more {
      moves := [];
    } else {
      var next := Transfer(s, m, p, 1);
      TransferKeeps(s, m, p, 1);
      SumAtLeastEntry(next, m);
      var rest := Gather(next, m);
      moves := [Move(m, More)] + rest;
      RunFirst(Tap, s, Move(m, More), rest);
    }
  }

  lemma SumAtLeastEntry(s: seq<int>, m: nat)
    requires Split(s) && m < |s|
    ensures Sum(s) >= s[m]
  {
    SumUpdate(s, m, 0);
    SumMonotone(Zeros(|s|), s[m := 0]);
  }

  /** With the same total and no other room above its target, room m is at or above its own. */
  lemma RestIsInRoom(u: seq<int>, t: seq<int>, m: nat)
    requires |u| == |t| && m < |u| && Sum(u) == Sum(t)
    requires forall j :: 0 <= j < |u| && j != m ==> u[j] <= t[j]
    ensures u[m] >= t[m]
    ensures (exists j :: 0 <= j < |u| && j != m && u[j] < t[j]) ==> u[m] > t[m]
  {
    SumUpdate(u, m, t[m]);
    SumMonotone(u[m := t[m]], t);
    if j :| 0 <= j < |u| && j != m && u[j] < t[j] {
      SumUpdate(u[m := t[m]], j, t[j]);
      SumMonotone(u[m := t[m]][j := t[j]], t);
    }
  }

  /** Spreading: "one more" in each room below its target, always taken from the fullest room m. */
  lemma {:induction false} Spread(u: seq<int>, t: seq<int>, m: nat) returns (moves: seq<Move>)
    requires Split(u) && Split(t) && |u| == |t| && m < |u| && Sum(u) == Sum(t)
    requires forall j :: 0 <= j < |u| ==> t[j] <= t[m]
    requires forall j :: 0 <= j < |u| && j != m ==> u[j] <= t[j]
    ensures Play(u, moves) == t
    ensures |moves| == u[m] - t[m]
    decreases u[m]
  {
    RestIsInRoom(u, t, m);
    if j: nat :| j < |u| && j != m && u[j] < t[j] {
      MoreTakesFrom(u, j, m);
      var next := Transfer(u, j, m, 1);
      TransferKeeps(u, j, m, 1);
      var rest := Spread(next, t, m);
      moves := [Move(j, More)] + rest;
      RunFirst(Tap, u, Move(j, More), rest);
    } else {
      moves := [];
      assert forall j: nat :: j < |u| && j != m ==> u[j] == t[j];
      SumUpdate(u, m, t[m]);
      assert u[m := t[m]] == t;
    }
  }

  lemma {:induction false} FullestRoom(t: seq<int>) returns (m: nat)
    requires t != []
    ensures m < |t| && forall j :: 0 <= j < |t| ==> t[j] <= t[m]
  {
    if |t| == 1 { return 0; }
    m := FullestRoom(t[..|t| - 1]);
    if t[m] < t[|t| - 1] { m := |t| - 1; }
  }

  /** Gather into the room that is fullest in the end, then spread from there. */
  lemma Route(s: seq<int>, t: seq<int>, m: nat) returns (moves: seq<Move>)
    requires Split(s) && Split(t) && |s| == |t| && Sum(s) == Sum(t)
    requires m < |t| && forall j :: 0 <= j < |t| ==> t[j] <= t[m]
    ensures Play(s, moves) == t
    ensures |moves| <= 2 * (Sum(s) - |s|)
  {
    var gather := Gather(s, m);
    var u := Play(s, gather);
    AllButOne(u, m);
    var spread := Spread(u, t, m);
    moves := gather + spread;
    RunConcat(Tap, s, gather, spread);
  }

  /** From any split, every split of the same party over as many rooms is at most
      2 * (adults - rooms) taps away. */
  lemma EverySplitReachable(s: seq<int>, t: seq<int>)
    requires Split(s) && Split(t) && |s| == |t| && Sum(s) == Sum(t)
    ensures exists moves :: Play(s, moves) == t && |moves| <= 2 * (Sum(s) - |s|)
  {
    if s == [] {
      assert Play(s, []) == t;
    } else {
      var m := FullestRoom(t);
      var moves := Route(s, t, m);
    }
  }

  lemma AllButOne(u: seq<int>, m: nat)
    requires m < |u| && forall j :: 0 <= j < |u| && j != m ==> u[j] == 1
    ensures Sum(u) == u[m] + |u| - 1
  {
    SumUpdate(u, m, 1);
    SumBounds(u[m := 1], 1, 1);
  }
}
