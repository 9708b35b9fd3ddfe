/** What the agency overview's results are, in the fields of the stays, prices and filters
(apps/booking-web/lib/agencyOverview.ts). */
module AgencyColumns {
  import opened Options
  import opened StableSort
  import opened AgencyOrder
  import opened AgencyOverview
  import opened AgencyChips

  /** The stay is of the type and area asked for, and has a pool if one is. */
  predicate StayWanted(stay: Stay, f: Filters) {
    && (f.stayType.Some? && f.stayType.value != "" ==> stay.propertyType == f.stayType)
    && (f.area.Some? && f.area.value != "" ==> stay.area == f.area)
    && (f.privatePool ==> stay.privatePool)
  }

  /** p is the last price in the answer for the property. */
  ghost predicate LastPrice(prices: seq<StayPrice>, id: string, p: StayPrice) {
    exists k :: 0 <= k < |prices| && prices[k] == p && p.propertyId == id
                && forall l :: k < l < |prices| ==> prices[l].propertyId != id
  }

  /** q is p priced with only the kind of rates asked for. */
  predicate PricedWith(p: StayPrice, f: Filters, q: StayPrice) {
    if !f.breakfast && !f.freeCancellation then q == p
    else
      var kind := if !f.freeCancellation then Breakfast else if !f.breakfast then FreeCancellation else Both;
      && p.status == Available && kind in p.rateFilters
      && q.price == p.rateFilters[kind].price && q.roomTypesFree == p.rateFilters[kind].roomTypesFree
      && q.propertyId == p.propertyId && q.status == p.status && q.rateFilters == p.rateFilters
  }

  /** An available stay's price per night in the guest's currency, if it has one, lies within the bounds set. */
  predicate WithinBounds(q: StayPrice, f: Filters, value: Option<Convert>) {
    q.status == Available && q.price.Some? && value.Some? ==>
      var amount := (value.value)(q.price.value.nightly, q.price.value.currency);
      amount.Some? ==>
        && (f.min.Some? ==> f.min.value <= Round(amount.value))
        && (f.max.Some? ==> Round(amount.value) <= f.max.value)
  }

  /** Rounding gives the nearest whole number, the higher of two. */
  lemma RoundIsNearest(x: real)
    ensures Round(x) == Round(x).Floor as real
    ensures x - 0.5 < Round(x) <= x + 0.5
  {
    assert Round(x) == (x + 0.5).Floor as real;
  }

  lemma {:induction false} ByIdIsLast(prices: seq<StayPrice>, id: string)
    ensures ById(prices, id).Some? ==> LastPrice(prices, id, ById(prices, id).value)
    ensures ById(prices, id).None? ==> forall k :: 0 <= k < |prices| ==> prices[k].propertyId != id
  {
    if prices != [] {
      var n := |prices| - 1;
      ByIdIsLast(prices[..n], id);
      if prices[n].propertyId != id && ById(prices, id).Some? {
        var k :| 0 <= k < n && prices[..n][k] == ById(prices, id).value && prices[k].propertyId == id
                 && forall l :: k < l < n ==> prices[..n][l].propertyId != id;
        assert prices[k] == ById(prices, id).value;
        forall l | k < l < |prices| ensures prices[l].propertyId != id { assert l < n ==> prices[..n][l] == prices[l]; }
      }
    }
  }

  lemma LastIsById(prices: seq<StayPrice>, id: string, p: StayPrice)
    ensures ById(prices, id) == Some(p) <==> LastPrice(prices, id, p)
  {
    ByIdIsLast(prices, id);
    if LastPrice(prices, id, p) {
      var k :| 0 <= k < |prices| && prices[k] == p && p.propertyId == id && forall l :: k < l < |prices| ==> prices[l].propertyId != id;
      var q := ById(prices, id).value;
      var j :| 0 <= j < |prices| && prices[j] == q && q.propertyId == id && forall l :: j < l < |prices| ==> prices[l].propertyId != id;
      assert j == k;
    }
  }

  lemma RatesInColumns(p: StayPrice, f: Filters, q: StayPrice)
    ensures WithRates(p, RateFilterOf(f)) == Some(q) <==> PricedWith(p, f, q)
  {
  }

  lemma BoundsInColumns(q: StayPrice, f: Filters, value: Option<Convert>)
    ensures !OutOfRange(NightlyIn(q, value), f) <==> WithinBounds(q, f, value)
  {
  }

  lemma StayInColumns(stay: Stay, f: Filters)
    ensures StayMatches(stay, f) <==> StayWanted(stay, f)
  {
  }

  /** The entry is an open card: a wanted stay whose last price is available or unknown, priced with the rates asked for
  and within the bounds. */
  ghost predicate IsOpenCard(stays: seq<Stay>, prices: seq<StayPrice>, f: Filters, value: Option<Convert>, e: Entry) {
    && e.stay in stays && StayWanted(e.stay, f) && WithinBounds(e.price, f, value)
    && exists p :: LastPrice(prices, e.stay.propertyId, p) && (p.status == Available || p.status == Unknown) && PricedWith(p, f, e.price)
  }

  lemma ReadExactly(stays: seq<Stay>, prices: seq<StayPrice>, f: Filters, e: Entry)
    ensures e in Read(stays, prices, f) <==>
            e.stay in stays && StayWanted(e.stay, f) && LastPrice(prices, e.stay.propertyId, e.price)
  {
    var kept := Filter(stays, Matching(f));
    FilterMembers(stays, Matching(f));
    StayInColumns(e.stay, f);
    CollectMembers(kept, ReadEntry(prices), e);
    LastIsById(prices, e.stay.propertyId, e.price);
    if e in Read(stays, prices, f) {
      var i :| 0 <= i < |kept| && ReadEntry(prices)(kept[i]) == Some(e);
      assert kept[i] in kept && kept[i] == e.stay;
    }
    if e.stay in kept {
      var i :| 0 <= i < |kept| && kept[i] == e.stay;
      assert ById(prices, e.stay.propertyId) == Some(e.price) ==> ReadEntry(prices)(kept[i]) == Some(e);
    }
  }

  /** The open cards are exactly those. */
  lemma OpenExactly(stays: seq<Stay>, prices: seq<StayPrice>, f: Filters, value: Option<Convert>, e: Entry)
    ensures e in Open(stays, prices, f, value) <==> IsOpenCard(stays, prices, f, value, e)
  {
    var read := Read(stays, prices, f);
    CollectMembers(read, OpenEntry(f, value), e);
    BoundsInColumns(e.price, f, value);
    if e in Open(stays, prices, f, value) {
      var i :| 0 <= i < |read| && OpenEntry(f, value)(read[i]) == Some(e);
      assert read[i] in read && OpenCard(read[i], f, value) == Some(e);
      ReadExactly(stays, prices, f, read[i]);
      RatesInColumns(read[i].price, f, e.price);
    }
    if IsOpenCard(stays, prices, f, value, e) {
      var p :| LastPrice(prices, e.stay.propertyId, p) && (p.status == Available || p.status == Unknown) && PricedWith(p, f, e.price);
      var r := Entry(e.stay, p);
      ReadExactly(stays, prices, f, r);
      RatesInColumns(p, f, e.price);
      var i :| 0 <= i < |read| && read[i] == r;
      assert OpenEntry(f, value)(read[i]) == OpenCard(r, f, value) == Some(e);
    }
  }

  /** The full list is the wanted stays whose last price says full or too small. */
  lemma FullExactly(stays: seq<Stay>, prices: seq<StayPrice>, sort: SortBy, badge: bool, comparable: Convert,
                    f: Filters, value: Option<Convert>, e: Entry)
    ensures e in AgencyResults(stays, Some(prices), sort, badge, comparable, f, value).full <==>
            && e.stay in stays && StayWanted(e.stay, f) && LastPrice(prices, e.stay.propertyId, e.price)
            && (e.price.status == Unavailable || e.price.status == NoFit)
  {
    FilterMembers(Read(stays, prices, f), IsFull());
    ReadExactly(stays, prices, f, e);
  }

  /** Every open card with an amount is in one currency. */
  ghost predicate OneCurrency(open: seq<Entry>, currency: string) {
    forall i :: 0 <= i < |open| && HasAmount(open[i].price) ==> open[i].price.price.value.currency == currency
  }

  lemma OneElement<T>(s: set<T>, x: T)
    requires |s| == 1 && x in s
    ensures s == {x}
  {
    assert |s - {x}| == 0;
  }

  lemma OneCurrencyCounts(open: seq<Entry>, i: nat)
    requires i < |open| && HasAmount(open[i].price)
    ensures |Currencies(open)| == 1 <==> OneCurrency(open, open[i].price.price.value.currency)
  {
    var all, own := Currencies(open), open[i].price.price.value.currency;
    assert open[i] in open && own in all;
    if OneCurrency(open, own) {
      forall c | c in all ensures c == own {
        var e :| e in open && HasAmount(e.price) && e.price.price.value.currency == c;
        var j :| 0 <= j < |open| && open[j] == e;
      }
      assert all == {own};
    }
    if |all| == 1 {
      OneElement(all, own);
      forall j | 0 <= j < |open| && HasAmount(open[j].price) ensures open[j].price.price.value.currency == own {
        assert open[j] in open && open[j].price.price.value.currency in all;
      }
    }
  }

  /** Cards compare by their price per night as it is while all are in one currency, and by its conversion otherwise; a
  card without an amount does not compare. */
  lemma ComparedBy(open: seq<Entry>, comparable: Convert, i: nat)
    requires i < |open|
    ensures var p := open[i].price;
            if p.status != Available || p.price.None? then Keys(open, comparable)[i] == None
            else if OneCurrency(open, p.price.value.currency) then Keys(open, comparable)[i] == Some(p.price.value.nightly)
            else Keys(open, comparable)[i] == comparable(p.price.value.nightly, p.price.value.currency)
  {
    if HasAmount(open[i].price) { OneCurrencyCounts(open, i); }
  }
}
