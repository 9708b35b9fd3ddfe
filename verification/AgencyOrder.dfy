/** The order of the agency overview's cards and its "Lowest price" badge (apps/booking-web/lib/agencyOverview.ts).
A card is known by its place on the page, and carries the price it is compared by, if it has one. */
module AgencyOrder {
  import opened Options
  import opened StableSort

  datatype SortBy = Recommended | PriceLow | PriceHigh

  /** The comparable price of each open card, in page order. */
  type Prices = seq<Option<real>>

  function Slots(n: nat): seq<nat> { seq(n, i => i) }

  function IsPriced(keys: Prices): nat -> bool { (i: nat) => i < |keys| && keys[i].Some? }
  function IsUnpriced(keys: Prices): nat -> bool { (i: nat) => !(i < |keys| && keys[i].Some?) }

  function KeyOf(keys: Prices, i: nat): real { if i < |keys| && keys[i].Some? then keys[i].value else 0.0 }

  function Cheaper(keys: Prices): (nat, nat) -> bool { (a: nat, b: nat) => KeyOf(keys, a) <= KeyOf(keys, b) }
  function Dearer(keys: Prices): (nat, nat) -> bool { (a: nat, b: nat) => KeyOf(keys, a) >= KeyOf(keys, b) }

  function Priced(keys: Prices): seq<nat> { Filter(Slots(|keys|), IsPriced(keys)) }
  function Unpriced(keys: Prices): seq<nat> { Filter(Slots(|keys|), IsUnpriced(keys)) }

  function ByPrice(keys: Prices, sort: SortBy): (nat, nat) -> bool {
    if sort == PriceHigh then Dearer(keys) else Cheaper(keys)
  }

  function PricedShown(keys: Prices, sort: SortBy): seq<nat> { Sort(Priced(keys), ByPrice(keys, sort)) }

  /** The cards' places in the order they are shown. */
  function Shown(keys: Prices, sort: SortBy): seq<nat> {
    if sort == Recommended then Slots(|keys|) else PricedShown(keys, sort) + Unpriced(keys)
  }

  /** The reduce: the first of the cheapest. */
  function CheapestOf(keys: Prices, slots: seq<nat>, best: Option<nat>): Option<nat> {
    if slots == [] then best
    else CheapestOf(keys, slots[1..],
                    if best.Some? && KeyOf(keys, best.value) <= KeyOf(keys, slots[0]) then best else Some(slots[0]))
  }

  function Cheapest(keys: Prices): Option<nat> { CheapestOf(keys, Priced(keys), None) }

  predicate HasBadge(keys: Prices, badge: bool, slot: nat) {
    badge && |Priced(keys)| > 1 && Cheapest(keys) == Some(slot)
  }

  // ----- the order -----

  lemma SlotsMembers(n: nat)
    ensures forall i: nat :: i in Slots(n) <==> i < n
  {
    forall i: nat ensures i in Slots(n) <==> i < n {
      if i < n { assert Slots(n)[i] == i; }
    }
  }

  function Place(): nat -> int { (i: nat) => i }

  lemma PricedMembers(keys: Prices)
    ensures forall i: nat :: i in Priced(keys) <==> i < |keys| && keys[i].Some?
    ensures Increasing(Priced(keys), Place())
  {
    SlotsMembers(|keys|);
    FilterMembers(Slots(|keys|), IsPriced(keys));
    FilterKeepsOrder(Slots(|keys|), IsPriced(keys), Place());
  }

  lemma UnpricedMembers(keys: Prices)
    ensures forall i: nat :: i in Unpriced(keys) <==> i < |keys| && keys[i].None?
    ensures Increasing(Unpriced(keys), Place())
  {
    SlotsMembers(|keys|);
    FilterMembers(Slots(|keys|), IsUnpriced(keys));
    FilterKeepsOrder(Slots(|keys|), IsUnpriced(keys), Place());
  }

  /** Every open card is shown exactly once, whatever the sort. */
  lemma ShownIsPermutation(keys: Prices, sort: SortBy)
    ensures multiset(Shown(keys, sort)) == multiset(Slots(|keys|))
  {
    if sort != Recommended {
      SortPermutes(Priced(keys), ByPrice(keys, sort));
      FilterSplits(Slots(|keys|), IsPriced(keys), IsUnpriced(keys));
    }
  }

  /** a is shown before b: the better price first, equal prices in page order, unpriced cards last in page order. */
  predicate Precedes(keys: Prices, sort: SortBy, a: nat, b: nat) {
    && a < |keys| && b < |keys|
    && if keys[a].Some? && keys[b].Some?
       then
         || (if sort == PriceHigh then keys[a].value > keys[b].value else keys[a].value < keys[b].value)
         || (keys[a].value == keys[b].value && a < b)
       else keys[a].Some? || (keys[b].None? && a < b)
  }

  lemma PricedShownArePriced(keys: Prices, sort: SortBy)
    ensures |PricedShown(keys, sort)| == |Priced(keys)|
    ensures forall i: nat :: i in PricedShown(keys, sort) <==> i < |keys| && keys[i].Some?
  {
    PricedMembers(keys);
    SortPermutes(Priced(keys), ByPrice(keys, sort));
    SameElements(PricedShown(keys, sort), Priced(keys));
  }

  lemma PricedShownSorted(keys: Prices, sort: SortBy)
    ensures Ordered(PricedShown(keys, sort), ByPrice(keys, sort))
    ensures TiesInOrder(PricedShown(keys, sort), ByPrice(keys, sort), Place())
  {
    PricedMembers(keys);
    SortOrdered(Priced(keys), ByPrice(keys, sort));
    SortTies(Priced(keys), ByPrice(keys, sort), Place());
  }

  ghost predicate InOrder(keys: Prices, sort: SortBy, r: seq<nat>) {
    forall i, j :: 0 <= i < j < |r| ==> Precedes(keys, sort, r[i], r[j])
  }

  lemma PricedInOrder(keys: Prices, sort: SortBy)
    requires sort != Recommended
    ensures InOrder(keys, sort, PricedShown(keys, sort))
  {
    var r, leq := PricedShown(keys, sort), ByPrice(keys, sort);
    PricedShownArePriced(keys, sort);
    PricedShownSorted(keys, sort);
    forall i, j | 0 <= i < j < |r| ensures Precedes(keys, sort, r[i], r[j]) {
      assert r[i] in r && r[j] in r;
      assert leq(r[i], r[j]);
      assert leq(r[j], r[i]) ==> Place()(r[i]) < Place()(r[j]);
    }
  }

  /** Sorted by price, every card precedes every later one. */
  lemma ShownInOrder(keys: Prices, sort: SortBy)
    requires sort != Recommended
    ensures InOrder(keys, sort, Shown(keys, sort))
  {
    var p, u := PricedShown(keys, sort), Unpriced(keys);
    PricedInOrder(keys, sort);
    PricedShownArePriced(keys, sort);
    UnpricedMembers(keys);
    forall i, j | 0 <= i < j < |p + u| ensures Precedes(keys, sort, (p + u)[i], (p + u)[j]) {
      if i < |p| { assert p[i] in p; } else { assert u[i - |p|] in u; }
      if j < |p| { assert p[j] in p; } else { assert u[j - |p|] in u; }
      if |p| <= i { assert Place()(u[i - |p|]) < Place()(u[j - |p|]); }
    }
  }

  // ----- the badge -----

  ghost predicate IsFirstCheapest(keys: Prices, slots: seq<nat>, best: nat) {
    && best in slots
    && (forall s :: s in slots ==> KeyOf(keys, best) <= KeyOf(keys, s))
    && (forall s :: s in slots && KeyOf(keys, s) == KeyOf(keys, best) ==> best <= s)
  }

  /** The reduce, from the first of the cheapest seen so far, finds the first of the cheapest of all. */
  lemma {:induction false} CheapestIsFirst(keys: Prices, seen: seq<nat>, slots: seq<nat>, best: Option<nat>)
    requires Increasing(seen + slots, Place())
    requires if seen == [] then best.None? else best.Some? && IsFirstCheapest(keys, seen, best.value)
    requires seen + slots != []
    ensures CheapestOf(keys, slots, best).Some? && IsFirstCheapest(keys, seen + slots, CheapestOf(keys, slots, best).value)
    decreases |slots|
  {
    if slots == [] {
      assert seen + slots == seen;
    } else {
      var x := slots[0];
      var next := if best.Some? && KeyOf(keys, best.value) <= KeyOf(keys, x) then best else Some(x);
      assert seen + [x] + slots[1..] == seen + slots;
      CheapestGrows(keys, seen, x, slots[1..], best, next);
      CheapestIsFirst(keys, seen + [x], slots[1..], next);
    }
  }

  lemma CheapestGrows(keys: Prices, seen: seq<nat>, x: nat, rest: seq<nat>, best: Option<nat>, next: Option<nat>)
    requires Increasing(seen + [x] + rest, Place())
    requires if seen == [] then best.None? else best.Some? && IsFirstCheapest(keys, seen, best.value)
    requires next == if best.Some? && KeyOf(keys, best.value) <= KeyOf(keys, x) then best else Some(x)
    ensures next.Some? && IsFirstCheapest(keys, seen + [x], next.value)
  {
    var all := seen + [x] + rest;
    forall s | s in seen ensures s < x {
      var a :| 0 <= a < |seen| && seen[a] == s;
      assert Place()(all[a]) < Place()(all[|seen|]);
    }
    assert forall s :: s in seen + [x] <==> s in seen || s == x;
  }

  lemma CheapestFound(keys: Prices)
    requires Priced(keys) != []
    ensures Cheapest(keys).Some? && IsFirstCheapest(keys, Priced(keys), Cheapest(keys).value)
  {
    PricedMembers(keys);
    assert [] + Priced(keys) == Priced(keys);
    CheapestIsFirst(keys, [], Priced(keys), None);
  }

  /** The first of the cheapest priced cards. */
  ghost predicate IsLowest(keys: Prices, best: nat) {
    && best < |keys| && keys[best].Some?
    && (forall s: nat :: s < |keys| && keys[s].Some? ==>
         keys[best].value < keys[s].value || (keys[best].value == keys[s].value && best <= s))
  }

  lemma CheapestIsLowest(keys: Prices)
    requires Priced(keys) != []
    ensures Cheapest(keys).Some? && IsLowest(keys, Cheapest(keys).value)
  {
    CheapestFound(keys);
    PricedMembers(keys);
    var best := Cheapest(keys).value;
    forall s: nat | s < |keys| && keys[s].Some?
      ensures keys[best].value < keys[s].value || (keys[best].value == keys[s].value && best <= s)
    {
      assert s in Priced(keys) && best in Priced(keys);
    }
  }

  /** A card has the badge exactly when it is on, two or more cards are priced and this is the first of the cheapest. */
  lemma BadgeExactly(keys: Prices, badge: bool, slot: nat)
    ensures HasBadge(keys, badge, slot) <==> badge && |Priced(keys)| > 1 && IsLowest(keys, slot)
  {
    if |Priced(keys)| > 1 { CheapestIsLowest(keys); }
  }

  /** When the badge is on and two or more cards are priced, exactly one place in the list carries it. */
  lemma OneBadge(keys: Prices, sort: SortBy)
    requires |Priced(keys)| > 1
    ensures exists k :: 0 <= k < |Shown(keys, sort)| && HasBadge(keys, true, Shown(keys, sort)[k])
    ensures forall j, k :: 0 <= j < k < |Shown(keys, sort)| ==>
              !(HasBadge(keys, true, Shown(keys, sort)[j]) && HasBadge(keys, true, Shown(keys, sort)[k]))
  {
    var r := Shown(keys, sort);
    CheapestIsLowest(keys);
    var best := Cheapest(keys).value;
    ShownIsPermutation(keys, sort);
    SameElements(r, Slots(|keys|));
    SlotsMembers(|keys|);
    assert best in r;
    if j, k :| 0 <= j < k < |r| && HasBadge(keys, true, r[j]) && HasBadge(keys, true, r[k]) {
      assert r[j] == r[k];
      ShownIsDistinct(keys, sort, j, k);
    }
  }

  lemma ShownIsDistinct(keys: Prices, sort: SortBy, j: nat, k: nat)
    requires j < k < |Shown(keys, sort)|
    ensures Shown(keys, sort)[j] != Shown(keys, sort)[k]
  {
    if sort != Recommended {
      ShownInOrder(keys, sort);
      assert Precedes(keys, sort, Shown(keys, sort)[j], Shown(keys, sort)[k]);
    }
  }

  lemma NothingBeforeLowest(keys: Prices, a: nat, best: nat)
    requires a < |keys| && keys[a].Some? && IsLowest(keys, best)
    ensures !Precedes(keys, PriceLow, a, best)
  {
  }

  /** Cheapest first, the card with the badge is the first card. */
  lemma BadgeComesFirst(keys: Prices, slot: nat)
    requires HasBadge(keys, true, slot)
    ensures Shown(keys, PriceLow) != [] && Shown(keys, PriceLow)[0] == slot
  {
    var r := PricedShown(keys, PriceLow);
    BadgeExactly(keys, true, slot);
    PricedInOrder(keys, PriceLow);
    PricedShownArePriced(keys, PriceLow);
    assert slot in r && r[0] in r;
    var j :| 0 <= j < |r| && r[j] == slot;
    NothingBeforeLowest(keys, r[0], r[j]);
  }
}
