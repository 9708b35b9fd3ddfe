/** The agency overview's results and filter chips (apps/booking-web/lib/agencyOverview.ts), two separately
written computations over the same stays and prices. Amounts are real numbers. */
module AgencyOverview {
  import opened Options
  import opened StableSort
  import opened AgencyOrder

  datatype Money = Money(total: real, nightly: real, currency: string)

  datatype RateKind = Breakfast | FreeCancellation | Both

  datatype Offer = Offer(roomTypesFree: nat, price: Option<Money>)

  datatype Status = Available | Unavailable | NoFit | Unknown

  /** A missing rate kind is the source's null entry. */
  datatype StayPrice = StayPrice(propertyId: string, status: Status, roomTypesFree: nat, price: Option<Money>,
                                 rateFilters: map<RateKind, Offer>)

  datatype Pin = Pin(latitude: real, longitude: real, approximate: bool)

  datatype Stay = Stay(propertyId: string, slug: string, propertyType: Option<string>, area: Option<string>,
                       privatePool: bool, pin: Option<Pin>)

  datatype Filters = Filters(stayType: Option<string>, area: Option<string>, min: Option<real>, max: Option<real>,
                             privatePool: bool, breakfast: bool, freeCancellation: bool)

  const NoFilters := Filters(None, None, None, None, false, false, false)

  /** An amount in another currency, or None when no rate converts it. */
  type Convert = (real, string) -> Option<real>

  /** A text that JavaScript takes as true. */
  predicate Truthy(s: Option<string>) { s.Some? && s.value != "" }

  function RateFilterOf(f: Filters): Option<RateKind> {
    if f.breakfast && f.freeCancellation then Some(Both)
    else if f.breakfast then Some(Breakfast)
    else if f.freeCancellation then Some(FreeCancellation)
    else None
  }

  predicate StayMatches(stay: Stay, f: Filters) {
    && (!Truthy(f.stayType) || stay.propertyType == f.stayType)
    && (!Truthy(f.area) || stay.area == f.area)
    && (!f.privatePool || stay.privatePool)
  }

  function WithRates(price: StayPrice, kind: Option<RateKind>): Option<StayPrice> {
    if kind.None? then Some(price)
    else if price.status == Available && kind.value in price.rateFilters then
      var one := price.rateFilters[kind.value];
      Some(price.(roomTypesFree := one.roomTypesFree, price := one.price))
    else None
  }

  /** JavaScript's `Math.round`: halves go up. */
  function Round(x: real): real { (x + 0.5).Floor as real }

  function NightlyIn(price: StayPrice, value: Option<Convert>): Option<real> {
    if price.status != Available || price.price.None? || value.None? then None
    else
      var amount := (value.value)(price.price.value.nightly, price.price.value.currency);
      if amount.None? then None else Some(Round(amount.value))
  }

  /** A map built from a list keeps the last entry of an id. */
  function ById(prices: seq<StayPrice>, id: string): Option<StayPrice> {
    if prices == [] then None
    else if prices[|prices| - 1].propertyId == id then Some(prices[|prices| - 1])
    else ById(prices[..|prices| - 1], id)
  }

  datatype Entry = Entry(stay: Stay, price: StayPrice)

  /** JavaScript's `flatMap` with at most one value each. */
  function Collect<T, U>(s: seq<T>, f: T -> Option<U>): seq<U> {
    if s == [] then [] else (if f(s[0]).Some? then [f(s[0]).value] else []) + Collect(s[1..], f)
  }

  function ReadEntry(prices: seq<StayPrice>): Stay -> Option<Entry> {
    (stay: Stay) =>
      var price := ById(prices, stay.propertyId);
      if price.Some? then Some(Entry(stay, price.value)) else None
  }

  predicate OutOfRange(nightly: Option<real>, f: Filters) {
    nightly.Some? && ((f.min.Some? && nightly.value < f.min.value) || (f.max.Some? && nightly.value > f.max.value))
  }

  function OpenCard(e: Entry, f: Filters, value: Option<Convert>): Option<Entry> {
    if e.price.status != Available && e.price.status != Unknown then None
    else
      var price := WithRates(e.price, RateFilterOf(f));
      if price.None? || OutOfRange(NightlyIn(price.value, value), f) then None
      else Some(Entry(e.stay, price.value))
  }

  function OpenEntry(f: Filters, value: Option<Convert>): Entry -> Option<Entry> { (e: Entry) => OpenCard(e, f, value) }

  function Matching(f: Filters): Stay -> bool { (stay: Stay) => StayMatches(stay, f) }

  function Read(stays: seq<Stay>, prices: seq<StayPrice>, f: Filters): seq<Entry> {
    Collect(Filter(stays, Matching(f)), ReadEntry(prices))
  }

  function Open(stays: seq<Stay>, prices: seq<StayPrice>, f: Filters, value: Option<Convert>): seq<Entry> {
    Collect(Read(stays, prices, f), OpenEntry(f, value))
  }

  predicate HasAmount(price: StayPrice) { price.status == Available && price.price.Some? }

  function Currencies(open: seq<Entry>): set<string> {
    set e | e in open && HasAmount(e.price) :: e.price.price.value.currency
  }

  /** The price an open card is compared by: as it is in one currency, converted otherwise. */
  function KeyOfCard(open: seq<Entry>, comparable: Convert, price: StayPrice): Option<real> {
    if !HasAmount(price) then None
    else if |Currencies(open)| == 1 then Some(price.price.value.nightly)
    else comparable(price.price.value.nightly, price.price.value.currency)
  }

  function Keys(open: seq<Entry>, comparable: Convert): Prices {
    seq(|open|, i requires 0 <= i < |open| => KeyOfCard(open, comparable, open[i].price))
  }

  datatype Card = Card(stay: Stay, price: Option<StayPrice>, lowest: bool)

  datatype Results = Results(cards: seq<Card>, full: seq<Entry>, available: nat, total: nat)

  function IsFull(): Entry -> bool { (e: Entry) => e.price.status == Unavailable || e.price.status == NoFit }
  function IsAvailable(): Entry -> bool { (e: Entry) => e.price.status == Available }

  function CardAt(open: seq<Entry>, keys: Prices, badge: bool): nat -> Option<Card> {
    (slot: nat) =>
      if slot < |open| then Some(Card(open[slot].stay, Some(open[slot].price), HasBadge(keys, badge, slot))) else None
  }

  function AgencyResults(stays: seq<Stay>, prices: Option<seq<StayPrice>>, sort: SortBy, badge: bool,
                         comparable: Convert, f: Filters, value: Option<Convert>): Results {
    if prices.None? then
      var kept := Filter(stays, Matching(f));
      Results(Collect(kept, (stay: Stay) => Some(Card(stay, None, false))), [], 0, |kept|)
    else
      var read := Read(stays, prices.value, f);
      var open := Open(stays, prices.value, f, value);
      var keys := Keys(open, comparable);
      Results(Collect(Shown(keys, sort), CardAt(open, keys, badge)),
              Filter(read, IsFull()),
              |Filter(open, IsAvailable())|,
              |read|)
  }

  // ----- the filter chips -----

  datatype Enabled = Enabled(propertyType: bool, area: bool, price: bool, privatePool: bool, breakfast: bool,
                             freeCancellation: bool)

  datatype Range = Range(low: real, high: real)

  datatype FilterOptions = FilterOptions(types: seq<string>, areas: seq<string>, privatePool: bool, breakfast: bool,
                                         freeCancellation: bool, price: Option<Range>)

  predicate Splits(kept: nat, total: nat) { 0 < kept < total }

  function Equals(v: string): Option<string> -> bool { (o: Option<string>) => o == Some(v) }

  function Count(values: seq<Option<string>>, v: string): nat { |Filter(values, Equals(v))| }

  /** The values that appear, in the order of their first appearance. */
  function Distinct(values: seq<Option<string>>): seq<string> {
    if values == [] then []
    else
      var before := Distinct(values[..|values| - 1]);
      var last := values[|values| - 1];
      if Truthy(last) && last.value !in before then before + [last.value] else before
  }

  function Worthwhile(values: seq<Option<string>>): string -> bool {
    (v: string) => Splits(Count(values, v), |values|)
  }

  function MoreStays(values: seq<Option<string>>): (string, string) -> bool {
    (a: string, b: string) => Count(values, a) >= Count(values, b)
  }

  function Listed(values: seq<Option<string>>): seq<string> {
    Sort(Filter(Distinct(values), Worthwhile(values)), MoreStays(values))
  }

  function ChoicesOf(on: bool, values: seq<Option<string>>, chosen: Option<string>): seq<string> {
    if !on then (if Truthy(chosen) then [chosen.value] else [])
    else if Truthy(chosen) && chosen.value !in Listed(values) then Listed(values) + [chosen.value]
    else Listed(values)
  }

  function AvailableOf(prices: seq<StayPrice>): Stay -> Option<StayPrice> {
    (stay: Stay) =>
      var price := ById(prices, stay.propertyId);
      if price.Some? && price.value.status == Available then price else None
  }

  function HasRate(kind: RateKind): StayPrice -> bool { (p: StayPrice) => kind in p.rateFilters }

  function NightlyOf(kind: Option<RateKind>, value: Option<Convert>): StayPrice -> Option<real> {
    (p: StayPrice) =>
      var price := WithRates(p, kind);
      if price.None? then None else NightlyIn(price.value, value)
  }

  function Least(s: seq<real>): real
    requires s != []
  {
    if |s| == 1 then s[0] else if s[0] <= Least(s[1..]) then s[0] else Least(s[1..])
  }

  function Greatest(s: seq<real>): real
    requires s != []
  {
    if |s| == 1 then s[0] else if s[0] >= Greatest(s[1..]) then s[0] else Greatest(s[1..])
  }

  function RateSplits(available: seq<StayPrice>, kind: RateKind): bool {
    Splits(|Filter(available, HasRate(kind))|, |available|)
  }

  predicate PriceSet(f: Filters) { f.min.Some? || f.max.Some? }

  function PriceOption(nightly: seq<real>, on: bool, f: Filters): Option<Range> {
    if on && nightly != [] && (Least(nightly) < Greatest(nightly) || PriceSet(f)) then
      Some(Range(Least(nightly), Greatest(nightly)))
    else if PriceSet(f) then
      var low := if f.min.Some? then f.min.value else 0.0;
      Some(Range(low, if f.max.Some? then f.max.value else low))
    else None
  }

  function HasPool(): Stay -> bool { (stay: Stay) => stay.privatePool }

  function AvailablePrices(stays: seq<Stay>, prices: Option<seq<StayPrice>>): seq<StayPrice> {
    Collect(stays, AvailableOf(if prices.Some? then prices.value else []))
  }

  function TypesOf(stays: seq<Stay>): seq<Option<string>> { seq(|stays|, i requires 0 <= i < |stays| => stays[i].propertyType) }
  function AreasOf(stays: seq<Stay>): seq<Option<string>> { seq(|stays|, i requires 0 <= i < |stays| => stays[i].area) }

  function AgencyFilterOptions(stays: seq<Stay>, prices: Option<seq<StayPrice>>, on: Enabled, f: Filters,
                               value: Option<Convert>): FilterOptions {
    var available := AvailablePrices(stays, prices);
    FilterOptions(
      ChoicesOf(on.propertyType, TypesOf(stays), f.stayType),
      ChoicesOf(on.area, AreasOf(stays), f.area),
      f.privatePool || (on.privatePool && Splits(|Filter(stays, HasPool())|, |stays|)),
      f.breakfast || (on.breakfast && RateSplits(available, Breakfast)),
      f.freeCancellation || (on.freeCancellation && RateSplits(available, FreeCancellation)),
      PriceOption(Collect(available, NightlyOf(RateFilterOf(f), value)), on.price, f))
  }
}
