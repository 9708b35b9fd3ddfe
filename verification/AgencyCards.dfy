/** What the agency overview shows (apps/booking-web/lib/agencyOverview.ts): every open stay once, in the order asked
for, with at most one "Lowest price" badge, and the stays near another. */
module AgencyCards {
  import opened Options
  import opened StableSort
  import opened AgencyOrder
  import opened AgencyOverview

  lemma {:induction false} CollectAll<T, U>(s: seq<T>, f: T -> Option<U>)
    requires forall i :: 0 <= i < |s| ==> f(s[i]).Some?
    ensures |Collect(s, f)| == |s| && forall i :: 0 <= i < |s| ==> Collect(s, f)[i] == f(s[i]).value
  {
    if s != [] {
      CollectAll(s[1..], f);
      forall i | 0 <= i < |s| ensures Collect(s, f)[i] == f(s[i]).value {
        assert i > 0 ==> Collect(s[1..], f)[i - 1] == f(s[1..][i - 1]).value;
      }
    }
  }

  /** The places of the open stays, in the order their cards are shown: each once. */
  ghost predicate Arranges(at: seq<nat>, n: nat) { multiset(at) == multiset(Slots(n)) }

  lemma ArrangedInRange(at: seq<nat>, n: nat)
    requires Arranges(at, n)
    ensures |at| == n && forall k :: 0 <= k < |at| ==> at[k] < n
  {
    SlotsMembers(n);
    assert |at| == |multiset(at)| == |Slots(n)|;
    SameElements(at, Slots(n));
    forall k | 0 <= k < |at| ensures at[k] < n { assert at[k] in at; }
  }

  /** A card shows an open stay and its price. */
  predicate Shows(card: Card, e: Entry) { card.stay == e.stay && card.price == Some(e.price) }

  /** The cards show the open stays, each once; sorted by price, the better price first, ties in page order and stays
  without a comparable price last in page order; and a card has the badge exactly when its stay is the first of the
  cheapest of two or more priced ones. */
  lemma CardsShowOpenStays(stays: seq<Stay>, prices: seq<StayPrice>, sort: SortBy, badge: bool, comparable: Convert,
                           f: Filters, value: Option<Convert>)
    ensures var open := Open(stays, prices, f, value);
            var cards := AgencyResults(stays, Some(prices), sort, badge, comparable, f, value).cards;
            var keys := Keys(open, comparable);
            var at := Shown(keys, sort);
            && Arranges(at, |open|) && |cards| == |at| == |open|
            && (forall k :: 0 <= k < |at| ==> at[k] < |open| && Shows(cards[k], open[at[k]]))
            && (forall k :: 0 <= k < |at| ==> (cards[k].lowest <==> badge && |Priced(keys)| > 1 && IsLowest(keys, at[k])))
            && (sort == Recommended ==> at == Slots(|open|))
            && (sort != Recommended ==> InOrder(keys, sort, at))
  {
    var open := Open(stays, prices, f, value);
    var keys := Keys(open, comparable);
    var at := Shown(keys, sort);
    ShownIsPermutation(keys, sort);
    ArrangedInRange(at, |open|);
    CollectAll(at, CardAt(open, keys, badge));
    forall k | 0 <= k < |at| ensures HasBadge(keys, badge, at[k]) <==> badge && |Priced(keys)| > 1 && IsLowest(keys, at[k]) {
      BadgeExactly(keys, badge, at[k]);
    }
    if sort != Recommended { ShownInOrder(keys, sort); }
  }

  /** With the badge on and two or more priced cards exactly one card is the lowest, the first when sorted cheapest
  first; otherwise none is. */
  lemma OneLowestCard(stays: seq<Stay>, prices: seq<StayPrice>, sort: SortBy, badge: bool, comparable: Convert,
                      f: Filters, value: Option<Convert>)
    ensures var keys := Keys(Open(stays, prices, f, value), comparable);
            var cards := AgencyResults(stays, Some(prices), sort, badge, comparable, f, value).cards;
            && (badge && |Priced(keys)| > 1 <==> exists k :: 0 <= k < |cards| && cards[k].lowest)
            && (forall j, k :: 0 <= j < |cards| && 0 <= k < |cards| && cards[j].lowest && cards[k].lowest ==> j == k)
            && (sort == PriceLow ==> forall k :: 0 <= k < |cards| && cards[k].lowest ==> k == 0)
  {
    var open := Open(stays, prices, f, value);
    var keys := Keys(open, comparable);
    var cards := AgencyResults(stays, Some(prices), sort, badge, comparable, f, value).cards;
    var at := Shown(keys, sort);
    ShownIsPermutation(keys, sort);
    ArrangedInRange(at, |open|);
    CollectAll(at, CardAt(open, keys, badge));
    assert forall k :: 0 <= k < |cards| ==> cards[k].lowest == HasBadge(keys, badge, at[k]);
    if badge && |Priced(keys)| > 1 {
      OneBadge(keys, sort);
      var k :| 0 <= k < |at| && HasBadge(keys, true, at[k]);
      assert cards[k].lowest;
      if sort == PriceLow { BadgeComesFirst(keys, at[k]); }
    }
  }

  /** Without a rate or price filter, every stay in the answer is either open or full. */
  lemma OpenOrFull(stays: seq<Stay>, prices: seq<StayPrice>, f: Filters, value: Option<Convert>)
    requires RateFilterOf(f).None? && f.min.None? && f.max.None?
    ensures multiset(Open(stays, prices, f, value)) + multiset(Filter(Read(stays, prices, f), IsFull()))
            == multiset(Read(stays, prices, f))
  {
    var read := Read(stays, prices, f);
    CollectIsFilter(read, OpenEntry(f, value), IsOpen());
    FilterSplits(read, IsOpen(), IsFull());
  }

  function IsOpen(): Entry -> bool { (e: Entry) => e.price.status == Available || e.price.status == Unknown }

  lemma {:induction false} CollectIsFilter<T>(s: seq<T>, f: T -> Option<T>, p: T -> bool)
    requires forall i :: 0 <= i < |s| ==> f(s[i]) == if p(s[i]) then Some(s[i]) else None
    ensures Collect(s, f) == Filter(s, p)
  {
    if s != [] { CollectIsFilter(s[1..], f, p); }
  }

  // ----- other stays nearby -----

  type Metres = (Pin, Pin) -> real

  function Others(stays: seq<Stay>, current: Stay): seq<Stay> { Filter(stays, (s: Stay) => s.slug != current.slug) }

  /** How far each other stay is; none without both pins. */
  function Distances(others: seq<Stay>, current: Stay, metres: Metres): Prices {
    seq(|others|, i requires 0 <= i < |others| =>
      if current.pin.Some? && others[i].pin.Some? then Some(metres(current.pin.value, others[i].pin.value)) else None)
  }

  /** The comparator's "not after": a missing distance counts as one step behind any known one. */
  predicate NotAfter(keys: Prices, a: nat, b: nat) {
    var missingA, missingB := a >= |keys| || keys[a].None?, b >= |keys| || keys[b].None?;
    if missingA || missingB then missingB || !missingA else keys[a].value <= keys[b].value
  }

  function Closer(keys: Prices): (nat, nat) -> bool { (a: nat, b: nat) => NotAfter(keys, a, b) }

  function Ranked(keys: Prices): seq<nat> { Sort(Slots(|keys|), Closer(keys)) }

  datatype Near = Near(stay: Stay, metres: Option<real>, approximate: bool)

  function NearAt(others: seq<Stay>, current: Stay, keys: Prices): nat -> Option<Near> {
    (i: nat) =>
      if i < |others| && i < |keys| then
        Some(Near(others[i], keys[i],
                  (current.pin.Some? && current.pin.value.approximate) || (others[i].pin.Some? && others[i].pin.value.approximate)))
      else None
  }

  function NearbyStays(stays: seq<Stay>, current: Stay, metres: Metres, most: nat): seq<Near> {
    var others := Others(stays, current);
    var keys := Distances(others, current, metres);
    var ranked := Ranked(keys);
    Collect(if most < |ranked| then ranked[..most] else ranked, NearAt(others, current, keys))
  }

  lemma NotAfterPrecedes(keys: Prices, a: nat, b: nat)
    requires a < |keys| && b < |keys| && NotAfter(keys, a, b) && (NotAfter(keys, b, a) ==> a < b)
    ensures Precedes(keys, PriceLow, a, b)
  {
  }

  lemma CloserIsPreorder(keys: Prices)
    ensures TotalPreorder(Closer(keys))
  {
  }

  /** One sort with missing distances behind gives the order of known distances first and the rest in page order. */
  lemma RankedInOrder(keys: Prices)
    ensures Arranges(Ranked(keys), |keys|) && InOrder(keys, PriceLow, Ranked(keys))
  {
    var r, leq := Ranked(keys), Closer(keys);
    SortPermutes(Slots(|keys|), leq);
    ArrangedInRange(r, |keys|);
    CloserIsPreorder(keys);
    SortOrdered(Slots(|keys|), leq);
    SortTies(Slots(|keys|), leq, Place());
    forall i, j | 0 <= i < j < |r| ensures Precedes(keys, PriceLow, r[i], r[j]) {
      assert leq(r[i], r[j]);
      assert leq(r[j], r[i]) ==> Place()(r[i]) < Place()(r[j]);
      NotAfterPrecedes(keys, r[i], r[j]);
    }
  }

  /** The stays nearby are the first `most` of the page's other stays, closest first: every other stay left out comes
  after every one shown. */
  lemma NearbyAreClosest(stays: seq<Stay>, current: Stay, metres: Metres, most: nat)
    ensures var others := Others(stays, current);
            var keys := Distances(others, current, metres);
            var at := Ranked(keys);
            var near := NearbyStays(stays, current, metres, most);
            && Arranges(at, |others|) && InOrder(keys, PriceLow, at)
            && |near| == (if most < |others| then most else |others|) <= |at|
            && (forall k :: 0 <= k < |near| ==> at[k] < |others| && near[k].stay == others[at[k]] && near[k].metres == keys[at[k]])
            && (forall k :: 0 <= k < |near| ==>
                 (near[k].approximate <==>
                   (current.pin.Some? && current.pin.value.approximate)
                   || (near[k].stay.pin.Some? && near[k].stay.pin.value.approximate)))
  {
    var others := Others(stays, current);
    var keys := Distances(others, current, metres);
    var at := Ranked(keys);
    RankedInOrder(keys);
    ArrangedInRange(at, |keys|);
    var first := if most < |at| then at[..most] else at;
    assert forall k :: 0 <= k < |first| ==> first[k] == at[k];
    CollectAll(first, NearAt(others, current, keys));
  }
}
