/** Filter chips agree with results (apps/booking-web/lib/agencyOverview.ts): what an offered chip keeps, counted on
the results computed with it. */
module AgencyChips {
  import opened Options
  import opened StableSort
  import opened AgencyOrder
  import opened AgencyOverview

  // ----- type and area choices -----

  ghost predicate TruthyValue(values: seq<Option<string>>, v: string) { v != "" && Some(v) in values }

  lemma {:induction false} DistinctMembers(values: seq<Option<string>>)
    ensures forall v :: v in Distinct(values) <==> TruthyValue(values, v)
  {
    if values != [] {
      var before, last := values[..|values| - 1], values[|values| - 1];
      DistinctMembers(before);
      assert values == before + [last];
    }
  }

  lemma CountPositive(values: seq<Option<string>>, v: string)
    ensures Count(values, v) > 0 <==> Some(v) in values
  {
    FilterMembers(values, Equals(v));
    if Count(values, v) > 0 {
      assert Filter(values, Equals(v))[0] in Filter(values, Equals(v));
    }
    if Some(v) in values {
      assert Some(v) in Filter(values, Equals(v));
    }
  }

  /** A value is worth a chip exactly when it is a real text that some but not all of the stays have. */
  lemma ListedExactly(values: seq<Option<string>>, v: string)
    ensures v in Listed(values) <==> v != "" && Splits(Count(values, v), |values|)
  {
    var kept := Filter(Distinct(values), Worthwhile(values));
    DistinctMembers(values);
    FilterMembers(Distinct(values), Worthwhile(values));
    SortPermutes(kept, MoreStays(values));
    SameElements(Listed(values), kept);
    CountPositive(values, v);
    assert v in Distinct(values) <==> TruthyValue(values, v);
  }

  function FirstAt(values: seq<Option<string>>, v: string): nat
    ensures FirstAt(values, v) <= |values|
    ensures forall i :: 0 <= i < FirstAt(values, v) ==> values[i] != Some(v)
    ensures FirstAt(values, v) < |values| ==> values[FirstAt(values, v)] == Some(v)
  {
    if values == [] then 0
    else
      var before := FirstAt(values[..|values| - 1], v);
      if before < |values| - 1 || values[|values| - 1] == Some(v) then before else |values|
  }

  function FirstPlace(values: seq<Option<string>>): string -> int { (v: string) => FirstAt(values, v) }

  lemma FirstStays(values: seq<Option<string>>, v: string)
    requires values != [] && Some(v) in values[..|values| - 1]
    ensures FirstAt(values, v) == FirstAt(values[..|values| - 1], v) < |values| - 1
  {
    var before := values[..|values| - 1];
    var i :| 0 <= i < |before| && before[i] == Some(v);
    assert !(i < FirstAt(before, v));
  }

  lemma {:induction false} DistinctByFirst(values: seq<Option<string>>)
    ensures Increasing(Distinct(values), FirstPlace(values))
  {
    if values != [] {
      var before, last := values[..|values| - 1], values[|values| - 1];
      DistinctByFirst(before);
      DistinctMembers(before);
      var d := Distinct(before);
      forall i | 0 <= i < |d| ensures FirstAt(values, d[i]) == FirstAt(before, d[i]) < |before| {
        assert d[i] in d && TruthyValue(before, d[i]);
        FirstStays(values, d[i]);
      }
      forall i, j | 0 <= i < j < |d| ensures FirstAt(values, d[i]) < FirstAt(values, d[j]) {
        assert FirstPlace(before)(d[i]) < FirstPlace(before)(d[j]);
      }
      if Truthy(last) && last.value !in d {
        assert last.value in d <==> TruthyValue(before, last.value);
        assert FirstAt(values, last.value) == |before|;
      }
    }
  }

  /** Chips come most stays first, equal counts in the order the page first shows them, none twice. */
  lemma ListedInOrder(values: seq<Option<string>>, i: nat, j: nat)
    requires i < j < |Listed(values)|
    ensures var a, b := Listed(values)[i], Listed(values)[j];
            && a != b
            && Count(values, a) >= Count(values, b)
            && (Count(values, a) == Count(values, b) ==> FirstAt(values, a) < FirstAt(values, b))
  {
    var kept, leq := Filter(Distinct(values), Worthwhile(values)), MoreStays(values);
    DistinctByFirst(values);
    FilterKeepsOrder(Distinct(values), Worthwhile(values), FirstPlace(values));
    SortOrdered(kept, leq);
    SortTies(kept, leq, FirstPlace(values));
    var a, b := Listed(values)[i], Listed(values)[j];
    assert leq(a, b);
    assert leq(b, a) ==> FirstPlace(values)(a) < FirstPlace(values)(b);
  }

  /** The counts a Map holds after the loop, with its keys in insertion order. */
  ghost predicate Tallied(values: seq<Option<string>>, counts: map<string, nat>, keys: seq<string>) {
    && keys == Distinct(values)
    && (forall v :: v in counts <==> TruthyValue(values, v))
    && (forall v :: v in counts ==> counts[v] == Count(values, v))
  }

  lemma CountGrows(values: seq<Option<string>>, last: Option<string>, v: string)
    ensures Count(values + [last], v) == Count(values, v) + if last == Some(v) then 1 else 0
  {
    FilterConcat(values, [last], Equals(v));
  }

  lemma TallyStep(values: seq<Option<string>>, counts: map<string, nat>, keys: seq<string>, last: Option<string>,
                  counts': map<string, nat>, keys': seq<string>)
    requires Tallied(values, counts, keys)
    requires if Truthy(last)
             then
               && counts' == counts[last.value := (if last.value in counts then counts[last.value] else 0) + 1]
               && keys' == if last.value in counts then keys else keys + [last.value]
             else counts' == counts && keys' == keys
    ensures Tallied(values + [last], counts', keys')
  {
    var values' := values + [last];
    assert values'[..|values'| - 1] == values && values'[|values'| - 1] == last;
    DistinctMembers(values);
    assert forall o :: o in values' <==> o in values || o == last;
    if Truthy(last) {
      assert last.value in counts <==> TruthyValue(values, last.value);
      assert last.value in keys <==> TruthyValue(values, last.value);
      CountPositive(values, last.value);
    }
    forall v ensures v in counts' <==> TruthyValue(values', v) {
      assert v in counts <==> TruthyValue(values, v);
    }
    forall v | v in counts' ensures counts'[v] == Count(values', v) { CountGrows(values, last, v); }
  }

  /** The loop that tallies the values and the list made from the tally: the choices of the specification. */
  method Choices(on: bool, values: seq<Option<string>>, chosen: Option<string>) returns (r: seq<string>)
    ensures r == ChoicesOf(on, values, chosen)
  {
    if !on { return if Truthy(chosen) then [chosen.value] else []; }
    var counts: map<string, nat>, keys: seq<string> := map[], [];
    for i := 0 to |values|
      invariant Tallied(values[..i], counts, keys)
    {
      ghost var was, were := counts, keys;
      var value := values[i];
      if Truthy(value) {
        if value.value !in counts { keys := keys + [value.value]; }
        counts := counts[value.value := (if value.value in counts then counts[value.value] else 0) + 1];
      }
      TallyStep(values[..i], was, were, value, counts, keys);
      assert values[..i] + [value] == values[..i + 1];
    }
    assert values[..|values|] == values;
    var tally := counts;
    var splits := (v: string) => v in tally && Splits(tally[v], |values|);
    var more := (a: string, b: string) => a in tally && b in tally && tally[a] >= tally[b];
    var listed := Sort(Filter(keys, splits), more);
    ListingAgrees(values, tally, keys, splits, more);
    r := if Truthy(chosen) && chosen.value !in listed then listed + [chosen.value] else listed;
  }

  lemma ListingAgrees(values: seq<Option<string>>, tally: map<string, nat>, keys: seq<string>,
                      splits: string -> bool, more: (string, string) -> bool)
    requires Tallied(values, tally, keys)
    requires forall v :: splits(v) == (v in tally && Splits(tally[v], |values|))
    requires forall a, b :: more(a, b) == (a in tally && b in tally && tally[a] >= tally[b])
    ensures Sort(Filter(keys, splits), more) == Listed(values)
  {
    DistinctMembers(values);
    forall i | 0 <= i < |keys| ensures splits(keys[i]) == Worthwhile(values)(keys[i]) {
      assert keys[i] in keys && TruthyValue(values, keys[i]);
    }
    FilterSame(keys, splits, Worthwhile(values));
    var kept := Filter(keys, splits);
    FilterMembers(keys, splits);
    forall i | 0 <= i < |kept| ensures kept[i] in tally && tally[kept[i]] == Count(values, kept[i]) {
      assert kept[i] in kept;
    }
    SortSame(kept, more, MoreStays(values));
  }

  // ----- counting through the results -----

  lemma {:induction false} FilterOfCollect<T, U>(s: seq<T>, f: T -> Option<U>, q: U -> bool, r: T -> bool)
    requires forall i :: 0 <= i < |s| ==> r(s[i]) == (f(s[i]).Some? && q(f(s[i]).value))
    ensures |Filter(Collect(s, f), q)| == |Filter(s, r)|
  {
    if s != [] {
      FilterOfCollect(s[1..], f, q, r);
      FilterConcat(if f(s[0]).Some? then [f(s[0]).value] else [], Collect(s[1..], f), q);
    }
  }

  lemma {:induction false} CollectMembers<T, U>(s: seq<T>, f: T -> Option<U>, y: U)
    ensures y in Collect(s, f) <==> exists i :: 0 <= i < |s| && f(s[i]) == Some(y)
  {
    if s != [] {
      CollectMembers(s[1..], f, y);
      if i :| 0 <= i < |s| && f(s[i]) == Some(y) {
        assert i > 0 ==> f(s[1..][i - 1]) == Some(y);
      }
    }
  }

  function EntryWith(f: Filters, value: Option<Convert>, q: Entry -> bool): Entry -> bool {
    (e: Entry) => OpenEntry(f, value)(e).Some? && q(OpenEntry(f, value)(e).value)
  }

  function ReadWith(prices: seq<StayPrice>, f: Filters, value: Option<Convert>, q: Entry -> bool): Stay -> bool {
    (stay: Stay) => ReadEntry(prices)(stay).Some? && EntryWith(f, value, q)(ReadEntry(prices)(stay).value)
  }

  function OpenWith(prices: seq<StayPrice>, f: Filters, value: Option<Convert>, q: Entry -> bool): Stay -> bool {
    (stay: Stay) => StayMatches(stay, f) && ReadWith(prices, f, value, q)(stay)
  }

  /** How many open cards have a quality, counted on the stays. */
  lemma OpenCount(stays: seq<Stay>, prices: seq<StayPrice>, f: Filters, value: Option<Convert>, q: Entry -> bool)
    ensures |Filter(Open(stays, prices, f, value), q)| == |Filter(stays, OpenWith(prices, f, value, q))|
  {
    FilterOfCollect(Read(stays, prices, f), OpenEntry(f, value), q, EntryWith(f, value, q));
    FilterOfCollect(Filter(stays, Matching(f)), ReadEntry(prices), EntryWith(f, value, q), ReadWith(prices, f, value, q));
    FilterOfFilter(stays, Matching(f), ReadWith(prices, f, value, q), OpenWith(prices, f, value, q));
  }

  /** The open card of a stay, if it has one. */
  function OpenOf(prices: seq<StayPrice>, f: Filters, value: Option<Convert>, stay: Stay): Option<Entry> {
    var price := ById(prices, stay.propertyId);
    if !StayMatches(stay, f) || price.None? then None else OpenCard(Entry(stay, price.value), f, value)
  }

  lemma OpenWithIs(stay: Stay, prices: seq<StayPrice>, f: Filters, value: Option<Convert>, q: Entry -> bool)
    ensures OpenWith(prices, f, value, q)(stay)
       <==> OpenOf(prices, f, value, stay).Some? && q(OpenOf(prices, f, value, stay).value)
  {
    var read := ReadEntry(prices)(stay);
    assert OpenWith(prices, f, value, q)(stay) == (StayMatches(stay, f) && ReadWith(prices, f, value, q)(stay));
    assert read.None? ==> !ReadWith(prices, f, value, q)(stay);
    if read.Some? {
      var e, o := read.value, OpenEntry(f, value)(read.value);
      assert ReadWith(prices, f, value, q)(stay) == EntryWith(f, value, q)(e);
      assert EntryWith(f, value, q)(e) == (o.Some? && q(o.value));
      assert o == OpenCard(e, f, value);
    }
  }

  /** The stay's own facts do not narrow anything. */
  predicate AnyStay(f: Filters) { !Truthy(f.stayType) && !Truthy(f.area) && !f.privatePool }

  // ----- rate chips -----

  function Only(kind: RateKind): Filters {
    NoFilters.(breakfast := kind != FreeCancellation, freeCancellation := kind != Breakfast)
  }

  function AvailableWith(prices: seq<StayPrice>, q: StayPrice -> bool): Stay -> bool {
    (stay: Stay) => AvailableOf(prices)(stay).Some? && q(AvailableOf(prices)(stay).value)
  }

  lemma AvailableWithIs(stay: Stay, prices: seq<StayPrice>, q: StayPrice -> bool)
    ensures var price := ById(prices, stay.propertyId);
            AvailableWith(prices, q)(stay) <==> price.Some? && price.value.status == Available && q(price.value)
  {
    var one := AvailableOf(prices)(stay);
    assert AvailableWith(prices, q)(stay) == (one.Some? && q(one.value));
  }

  function AnyPrice(): StayPrice -> bool { (p: StayPrice) => true }

  /** With no filters the results count the stays the chips count over. */
  lemma AvailableCount(stays: seq<Stay>, prices: seq<StayPrice>, value: Option<Convert>)
    ensures |Filter(Open(stays, prices, NoFilters, value), IsAvailable())| == |AvailablePrices(stays, Some(prices))|
  {
    var p, q := OpenWith(prices, NoFilters, value, IsAvailable()), AvailableWith(prices, AnyPrice());
    OpenCount(stays, prices, NoFilters, value, IsAvailable());
    forall i | 0 <= i < |stays| ensures p(stays[i]) == q(stays[i]) {
      OpenWithIs(stays[i], prices, NoFilters, value, IsAvailable());
      AvailableWithIs(stays[i], prices, AnyPrice());
    }
    FilterSame(stays, p, q);
    FilterOfCollect(stays, AvailableOf(prices), AnyPrice(), q);
    FilterAll(AvailablePrices(stays, Some(prices)), AnyPrice());
  }

  /** With only a kind of rate asked for, the results count the available stays that have it. */
  lemma RateCount(stays: seq<Stay>, prices: seq<StayPrice>, kind: RateKind, value: Option<Convert>)
    ensures |Filter(Open(stays, prices, Only(kind), value), IsAvailable())|
            == |Filter(AvailablePrices(stays, Some(prices)), HasRate(kind))|
  {
    var p, q := OpenWith(prices, Only(kind), value, IsAvailable()), AvailableWith(prices, HasRate(kind));
    OpenCount(stays, prices, Only(kind), value, IsAvailable());
    assert RateFilterOf(Only(kind)) == Some(kind);
    forall i | 0 <= i < |stays| ensures p(stays[i]) == q(stays[i]) {
      OpenWithIs(stays[i], prices, Only(kind), value, IsAvailable());
      AvailableWithIs(stays[i], prices, HasRate(kind));
    }
    FilterSame(stays, p, q);
    FilterOfCollect(stays, AvailableOf(prices), HasRate(kind), q);
  }

  predicate RateOffered(o: FilterOptions, kind: RateKind) {
    (kind == Breakfast && o.breakfast) || (kind == FreeCancellation && o.freeCancellation)
  }

  predicate RateEnabled(on: Enabled, kind: RateKind) {
    (kind == Breakfast && on.breakfast) || (kind == FreeCancellation && on.freeCancellation)
  }

  /** From no filters, a rate chip is offered exactly when it is switched on and the results with it have some but
  not all of the available stays. */
  lemma RateChip(stays: seq<Stay>, prices: Option<seq<StayPrice>>, sort: SortBy, badge: bool, comparable: Convert,
                 value: Option<Convert>, on: Enabled, kind: RateKind)
    requires kind != Both
    ensures RateOffered(AgencyFilterOptions(stays, prices, on, NoFilters, value), kind)
       <==> && RateEnabled(on, kind)
            && 0 < AgencyResults(stays, prices, sort, badge, comparable, Only(kind), value).available
                 < AgencyResults(stays, prices, sort, badge, comparable, NoFilters, value).available
  {
    if prices.Some? {
      AvailableCount(stays, prices.value, value);
      RateCount(stays, prices.value, kind, value);
    } else {
      forall i | 0 <= i < |stays| ensures AvailableOf([])(stays[i]).None? { }
      NoneAvailable(stays);
    }
  }

  lemma {:induction false} NoneAvailable(stays: seq<Stay>)
    ensures Collect(stays, AvailableOf([])) == []
  {
    if stays != [] { NoneAvailable(stays[1..]); }
  }

  // ----- type, area and pool chips -----

  /** The stays that the stay's own filters leave. */
  function Kept(stays: seq<Stay>, f: Filters): nat { |Filter(stays, Matching(f))| }

  lemma {:induction false} KeptOfType(stays: seq<Stay>, v: string)
    requires v != ""
    ensures Kept(stays, NoFilters.(stayType := Some(v))) == Count(TypesOf(stays), v)
  {
    if stays != [] {
      KeptOfType(stays[1..], v);
      assert TypesOf(stays)[1..] == TypesOf(stays[1..]);
    }
  }

  lemma {:induction false} KeptOfArea(stays: seq<Stay>, v: string)
    requires v != ""
    ensures Kept(stays, NoFilters.(area := Some(v))) == Count(AreasOf(stays), v)
  {
    if stays != [] {
      KeptOfArea(stays[1..], v);
      assert AreasOf(stays)[1..] == AreasOf(stays[1..]);
    }
  }

  /** Every stay of the page is in the answer, or there is none yet. */
  ghost predicate AllAnswered(stays: seq<Stay>, prices: Option<seq<StayPrice>>) {
    prices.Some? ==> forall i :: 0 <= i < |stays| ==> ById(prices.value, stays[i].propertyId).Some?
  }

  /** A type chip is offered exactly when it is switched on and splits the stays it is counted over, the page's. */
  lemma TypeChipSplits(stays: seq<Stay>, prices: Option<seq<StayPrice>>, value: Option<Convert>, on: Enabled, v: string)
    ensures v in AgencyFilterOptions(stays, prices, on, NoFilters, value).types
       <==> on.propertyType && Splits(Kept(stays, NoFilters.(stayType := Some(v))), |stays|)
  {
    ListedExactly(TypesOf(stays), v);
    if v != "" { KeptOfType(stays, v); } else { FilterAll(stays, Matching(NoFilters.(stayType := Some(v)))); }
  }

  /** The same for an area chip. */
  lemma AreaChipSplits(stays: seq<Stay>, prices: Option<seq<StayPrice>>, value: Option<Convert>, on: Enabled, v: string)
    ensures v in AgencyFilterOptions(stays, prices, on, NoFilters, value).areas
       <==> on.area && Splits(Kept(stays, NoFilters.(area := Some(v))), |stays|)
  {
    ListedExactly(AreasOf(stays), v);
    if v != "" { KeptOfArea(stays, v); } else { FilterAll(stays, Matching(NoFilters.(area := Some(v)))); }
  }

  /** The same for the private pool chip. */
  lemma PoolChipSplits(stays: seq<Stay>, prices: Option<seq<StayPrice>>, value: Option<Convert>, on: Enabled)
    ensures AgencyFilterOptions(stays, prices, on, NoFilters, value).privatePool
       <==> on.privatePool && Splits(Kept(stays, NoFilters.(privatePool := true)), |stays|)
  {
    FilterSame(stays, Matching(NoFilters.(privatePool := true)), HasPool());
  }

  function AnsweredMatching(prices: seq<StayPrice>, f: Filters): Stay -> bool {
    (stay: Stay) => StayMatches(stay, f) && ById(prices, stay.propertyId).Some?
  }

  function Answered(prices: seq<StayPrice>): Stay -> bool { (stay: Stay) => ById(prices, stay.propertyId).Some? }

  function AnyEntry(): Entry -> bool { (e: Entry) => true }

  lemma TotalCount(stays: seq<Stay>, prices: seq<StayPrice>, f: Filters)
    ensures |Read(stays, prices, f)| == |Filter(stays, AnsweredMatching(prices, f))|
  {
    FilterOfCollect(Filter(stays, Matching(f)), ReadEntry(prices), AnyEntry(), Answered(prices));
    FilterAll(Read(stays, prices, f), AnyEntry());
    FilterOfFilter(stays, Matching(f), Answered(prices), AnsweredMatching(prices, f));
  }

  /** Once an answer is there, filters on the stay's own facts split the results exactly when some stay in the answer
  passes them and some does not. */
  lemma TotalSplits(stays: seq<Stay>, prices: seq<StayPrice>, sort: SortBy, badge: bool, comparable: Convert,
                    f: Filters, value: Option<Convert>)
    ensures var total := AgencyResults(stays, Some(prices), sort, badge, comparable, f, value).total;
            var all := AgencyResults(stays, Some(prices), sort, badge, comparable, NoFilters, value).total;
            && (total > 0 <==> exists i :: 0 <= i < |stays| && Answered(prices)(stays[i]) && StayMatches(stays[i], f))
            && (total < all <==> exists i :: 0 <= i < |stays| && Answered(prices)(stays[i]) && !StayMatches(stays[i], f))
  {
    TotalCount(stays, prices, f);
    TotalCount(stays, prices, NoFilters);
    FilterKeepsSome(stays, AnsweredMatching(prices, f));
    FilterNarrows(stays, AnsweredMatching(prices, f), AnsweredMatching(prices, NoFilters));
    assert forall i :: 0 <= i < |stays| ==> StayMatches(stays[i], NoFilters);
  }

  /** Before an answer the total is the stays of the type, area and pool asked for; with one it is at most that, and
  equal exactly when every such stay is in the answer. */
  lemma TotalIsKept(stays: seq<Stay>, prices: Option<seq<StayPrice>>, sort: SortBy, badge: bool, comparable: Convert,
                    f: Filters, value: Option<Convert>)
    ensures var total := AgencyResults(stays, prices, sort, badge, comparable, f, value).total;
            if prices.None? then total == Kept(stays, f)
            else
              && total <= Kept(stays, f)
              && (total == Kept(stays, f) <==>
                   forall i :: 0 <= i < |stays| && StayMatches(stays[i], f) ==> Answered(prices.value)(stays[i]))
  {
    if prices.Some? {
      TotalCount(stays, prices.value, f);
      FilterNarrows(stays, AnsweredMatching(prices.value, f), Matching(f));
    }
  }

  /** The filters keep some but not all of the stays in the answer, or of all stays before there is one. */
  ghost predicate SplitsAnswered(stays: seq<Stay>, prices: Option<seq<StayPrice>>, f: Filters) {
    if prices.None? then Splits(Kept(stays, f), |stays|)
    else
      && (exists i :: 0 <= i < |stays| && Answered(prices.value)(stays[i]) && StayMatches(stays[i], f))
      && (exists i :: 0 <= i < |stays| && Answered(prices.value)(stays[i]) && !StayMatches(stays[i], f))
  }

  /** When filters on the stay's own facts show some but not all of the results. */
  lemma ResultsSplit(stays: seq<Stay>, prices: Option<seq<StayPrice>>, sort: SortBy, badge: bool, comparable: Convert,
                     f: Filters, value: Option<Convert>)
    ensures 0 < AgencyResults(stays, prices, sort, badge, comparable, f, value).total
              < AgencyResults(stays, prices, sort, badge, comparable, NoFilters, value).total
       <==> SplitsAnswered(stays, prices, f)
    ensures AllAnswered(stays, prices) ==> (SplitsAnswered(stays, prices, f) <==> Splits(Kept(stays, f), |stays|))
  {
    FilterAll(stays, Matching(NoFilters));
    if prices.Some? {
      TotalSplits(stays, prices.value, sort, badge, comparable, f, value);
      FilterKeepsSome(stays, Matching(f));
      FilterNarrows(stays, Matching(f), Matching(NoFilters));
      assert forall i :: 0 <= i < |stays| ==> StayMatches(stays[i], NoFilters);
    }
  }

  /** From no filters, with every stay answered or none yet, a type chip is offered exactly when it is switched on and the
  results with it have some but not all of the stays; otherwise the results split exactly when the answer does. */
  lemma TypeChip(stays: seq<Stay>, prices: Option<seq<StayPrice>>, sort: SortBy, badge: bool, comparable: Convert,
                 value: Option<Convert>, on: Enabled, v: string)
    ensures var f := NoFilters.(stayType := Some(v));
            var offered := v in AgencyFilterOptions(stays, prices, on, NoFilters, value).types;
            var split := 0 < AgencyResults(stays, prices, sort, badge, comparable, f, value).total
                           < AgencyResults(stays, prices, sort, badge, comparable, NoFilters, value).total;
            && (split <==> SplitsAnswered(stays, prices, f))
            && (AllAnswered(stays, prices) ==> (offered <==> on.propertyType && split))
  {
    ResultsSplit(stays, prices, sort, badge, comparable, NoFilters.(stayType := Some(v)), value);
    TypeChipSplits(stays, prices, value, on, v);
  }

  /** The same for an area chip. */
  lemma AreaChip(stays: seq<Stay>, prices: Option<seq<StayPrice>>, sort: SortBy, badge: bool, comparable: Convert,
                 value: Option<Convert>, on: Enabled, v: string)
    ensures var f := NoFilters.(area := Some(v));
            var offered := v in AgencyFilterOptions(stays, prices, on, NoFilters, value).areas;
            var split := 0 < AgencyResults(stays, prices, sort, badge, comparable, f, value).total
                           < AgencyResults(stays, prices, sort, badge, comparable, NoFilters, value).total;
            && (split <==> SplitsAnswered(stays, prices, f))
            && (AllAnswered(stays, prices) ==> (offered <==> on.area && split))
  {
    ResultsSplit(stays, prices, sort, badge, comparable, NoFilters.(area := Some(v)), value);
    AreaChipSplits(stays, prices, value, on, v);
  }

  /** The same for the private pool chip. */
  lemma PoolChip(stays: seq<Stay>, prices: Option<seq<StayPrice>>, sort: SortBy, badge: bool, comparable: Convert,
                 value: Option<Convert>, on: Enabled)
    ensures var f := NoFilters.(privatePool := true);
            var offered := AgencyFilterOptions(stays, prices, on, NoFilters, value).privatePool;
            var split := 0 < AgencyResults(stays, prices, sort, badge, comparable, f, value).total
                           < AgencyResults(stays, prices, sort, badge, comparable, NoFilters, value).total;
            && (split <==> SplitsAnswered(stays, prices, f))
            && (AllAnswered(stays, prices) ==> (offered <==> on.privatePool && split))
  {
    ResultsSplit(stays, prices, sort, badge, comparable, NoFilters.(privatePool := true), value);
    PoolChipSplits(stays, prices, value, on);
  }

  /** A chip counts the page's stays, the results only those in the answer: with a stay missing from the answer, an
  offered type can show nothing. */
  lemma UnansweredTypeChip(on: Enabled, sort: SortBy, badge: bool, comparable: Convert, value: Option<Convert>)
    requires on.propertyType
    ensures "villa" in AgencyFilterOptions(TwoStays, Some(OneAnswer), on, NoFilters, value).types
    ensures AgencyResults(TwoStays, Some(OneAnswer), sort, badge, comparable, NoFilters.(stayType := Some("villa")), value).total == 0
  {
    var values := TypesOf(TwoStays);
    assert values == [Some("villa")] + [Some("hotel")];
    FilterConcat([Some("villa")], [Some("hotel")], Equals("villa"));
    ListedExactly(values, "villa");
    var kept := Matching(NoFilters.(stayType := Some("villa")));
    assert TwoStays == [TwoStays[0]] + [TwoStays[1]];
    FilterConcat([TwoStays[0]], [TwoStays[1]], kept);
    assert Filter(TwoStays, kept) == [TwoStays[0]];
    assert ById(OneAnswer, "a") == None;
  }

  const TwoStays := [Stay("a", "a", Some("villa"), None, false, None), Stay("b", "b", Some("hotel"), None, false, None)]
  const OneAnswer := [StayPrice("b", Available, 1, None, map[])]

  // ----- the price chip -----

  lemma {:induction false} LeastIs(s: seq<real>)
    requires s != []
    ensures Least(s) in s && forall x :: x in s ==> Least(s) <= x
  {
    if |s| > 1 {
      LeastIs(s[1..]);
      assert s == [s[0]] + s[1..];
    }
  }

  lemma {:induction false} GreatestIs(s: seq<real>)
    requires s != []
    ensures Greatest(s) in s && forall x :: x in s ==> x <= Greatest(s)
  {
    if |s| > 1 {
      GreatestIs(s[1..]);
      assert s == [s[0]] + s[1..];
    }
  }

  /** The prices per night the range is shown for. */
  function ShownNightly(stays: seq<Stay>, prices: seq<StayPrice>, f: Filters, value: Option<Convert>): seq<real> {
    Collect(AvailablePrices(stays, Some(prices)), NightlyOf(RateFilterOf(f), value))
  }

  /** The price per night of a stay's card under the rate filters, if it has one in the guest's currency. */
  function NightlyOfStay(prices: seq<StayPrice>, f: Filters, value: Option<Convert>, stay: Stay): Option<real> {
    var price := AvailableOf(prices)(stay);
    if price.None? then None else NightlyOf(RateFilterOf(f), value)(price.value)
  }

  lemma NightlyFound(stays: seq<Stay>, prices: seq<StayPrice>, f: Filters, value: Option<Convert>, i: nat, x: real)
    requires i < |stays| && NightlyOfStay(prices, f, value, stays[i]) == Some(x)
    ensures x in ShownNightly(stays, prices, f, value)
  {
    var available, g := AvailablePrices(stays, Some(prices)), NightlyOf(RateFilterOf(f), value);
    var price := AvailableOf(prices)(stays[i]).value;
    CollectMembers(stays, AvailableOf(prices), price);
    var k :| 0 <= k < |available| && available[k] == price;
    CollectMembers(available, g, x);
    assert g(available[k]) == Some(x);
  }

  lemma NightlyComesFrom(stays: seq<Stay>, prices: seq<StayPrice>, f: Filters, value: Option<Convert>, x: real)
    requires x in ShownNightly(stays, prices, f, value)
    ensures exists i :: 0 <= i < |stays| && NightlyOfStay(prices, f, value, stays[i]) == Some(x)
  {
    var available, g := AvailablePrices(stays, Some(prices)), NightlyOf(RateFilterOf(f), value);
    CollectMembers(available, g, x);
    var k :| 0 <= k < |available| && g(available[k]) == Some(x);
    CollectMembers(stays, AvailableOf(prices), available[k]);
  }

  /** A card with a price in the guest's currency. */
  function PricedIn(value: Option<Convert>): Entry -> bool { (e: Entry) => NightlyIn(e.price, value).Some? }

  /** With no filter on the stay's own facts, the cards priced in the guest's currency are those in range. */
  lemma PricedUnder(stay: Stay, prices: seq<StayPrice>, f: Filters, value: Option<Convert>)
    requires AnyStay(f)
    ensures OpenWith(prices, f, value, PricedIn(value))(stay)
       <==> NightlyOfStay(prices, f, value, stay).Some? && !OutOfRange(NightlyOfStay(prices, f, value, stay), f)
  {
    OpenWithIs(stay, prices, f, value, PricedIn(value));
  }

  /** The number of cards with a price in the guest's currency. */
  function PricedCards(stays: seq<Stay>, prices: seq<StayPrice>, f: Filters, value: Option<Convert>): nat {
    |Filter(Open(stays, prices, f, value), PricedIn(value))|
  }

  /** Some price passes. */
  ghost predicate AnyOf(nightly: seq<real>, q: real -> bool) { exists x :: x in nightly && q(x) }

  /** The shown prices with a quality are the stays whose price has it. */
  lemma SomeNightly(stays: seq<Stay>, prices: seq<StayPrice>, f: Filters, value: Option<Convert>, q: real -> bool)
    ensures AnyOf(ShownNightly(stays, prices, f, value), q)
       <==> exists i :: 0 <= i < |stays| && NightlyOfStay(prices, f, value, stays[i]).Some? && q(NightlyOfStay(prices, f, value, stays[i]).value)
  {
    if AnyOf(ShownNightly(stays, prices, f, value), q) {
      var x :| x in ShownNightly(stays, prices, f, value) && q(x);
      NightlyComesFrom(stays, prices, f, value, x);
    }
    if i :| 0 <= i < |stays| && NightlyOfStay(prices, f, value, stays[i]).Some? && q(NightlyOfStay(prices, f, value, stays[i]).value) {
      NightlyFound(stays, prices, f, value, i, NightlyOfStay(prices, f, value, stays[i]).value);
    }
  }

  function Inside(g: Filters): real -> bool { (x: real) => !OutOfRange(Some(x), g) }
  function Outside(g: Filters): real -> bool { (x: real) => OutOfRange(Some(x), g) }

  /** A range keeps some priced card exactly when some shown price lies in it, and drops one exactly when some shown
  price lies outside. */
  lemma RangeCounts(stays: seq<Stay>, prices: seq<StayPrice>, f: Filters, value: Option<Convert>, min: Option<real>, max: Option<real>)
    requires AnyStay(f) && !PriceSet(f)
    ensures var nightly := ShownNightly(stays, prices, f, value);
            var g := f.(min := min, max := max);
            && (PricedCards(stays, prices, g, value) > 0 <==> AnyOf(nightly, Inside(g)))
            && (PricedCards(stays, prices, g, value) < PricedCards(stays, prices, f, value) <==> AnyOf(nightly, Outside(g)))
  {
    var g := f.(min := min, max := max);
    var p, q := OpenWith(prices, g, value, PricedIn(value)), OpenWith(prices, f, value, PricedIn(value));
    OpenCount(stays, prices, f, value, PricedIn(value));
    OpenCount(stays, prices, g, value, PricedIn(value));
    forall i | 0 <= i < |stays|
      ensures p(stays[i]) == (NightlyOfStay(prices, f, value, stays[i]).Some? && Inside(g)(NightlyOfStay(prices, f, value, stays[i]).value))
      ensures q(stays[i]) == NightlyOfStay(prices, f, value, stays[i]).Some?
    {
      PricedUnder(stays[i], prices, f, value);
      PricedUnder(stays[i], prices, g, value);
      assert NightlyOfStay(prices, f, value, stays[i]) == NightlyOfStay(prices, g, value, stays[i]);
    }
    FilterKeepsSome(stays, p);
    FilterNarrows(stays, p, q);
    SomeNightly(stays, prices, f, value, Inside(g));
    SomeNightly(stays, prices, f, value, Outside(g));
  }

  /** With no filter on the stay's own facts and no range set, the chip's range is such that an upper bound keeps a
  priced card exactly from the shown minimum on, and drops one exactly below the shown maximum. */
  lemma UpperBound(stays: seq<Stay>, prices: seq<StayPrice>, on: Enabled, f: Filters, value: Option<Convert>, b: real)
    requires AnyStay(f) && !PriceSet(f)
    requires AgencyFilterOptions(stays, Some(prices), on, f, value).price.Some?
    ensures var range := AgencyFilterOptions(stays, Some(prices), on, f, value).price.value;
            var g := f.(max := Some(b));
            && range.low < range.high
            && (PricedCards(stays, prices, g, value) > 0 <==> range.low <= b)
            && (PricedCards(stays, prices, g, value) < PricedCards(stays, prices, f, value) <==> b < range.high)
  {
    var nightly := ShownNightly(stays, prices, f, value);
    LeastIs(nightly);
    GreatestIs(nightly);
    RangeCounts(stays, prices, f, value, None, Some(b));
    assert f.(max := Some(b)) == f.(min := None, max := Some(b));
  }

  /** The same for a lower bound. */
  lemma LowerBound(stays: seq<Stay>, prices: seq<StayPrice>, on: Enabled, f: Filters, value: Option<Convert>, b: real)
    requires AnyStay(f) && !PriceSet(f)
    requires AgencyFilterOptions(stays, Some(prices), on, f, value).price.Some?
    ensures var range := AgencyFilterOptions(stays, Some(prices), on, f, value).price.value;
            var g := f.(min := Some(b));
            && (PricedCards(stays, prices, g, value) > 0 <==> b <= range.high)
            && (PricedCards(stays, prices, g, value) < PricedCards(stays, prices, f, value) <==> range.low < b)
  {
    var nightly := ShownNightly(stays, prices, f, value);
    LeastIs(nightly);
    GreatestIs(nightly);
    RangeCounts(stays, prices, f, value, Some(b), None);
    assert f.(min := Some(b)) == f.(min := Some(b), max := None);
  }

  // ----- chips in use -----

  /** A chip in use is always still offered, whatever the stays, the answer and the switches. */
  lemma ChipInUseStays(stays: seq<Stay>, prices: Option<seq<StayPrice>>, on: Enabled, f: Filters, value: Option<Convert>)
    ensures var o := AgencyFilterOptions(stays, prices, on, f, value);
            && (Truthy(f.stayType) ==> f.stayType.value in o.types)
            && (Truthy(f.area) ==> f.area.value in o.areas)
            && (f.privatePool ==> o.privatePool)
            && (f.breakfast ==> o.breakfast)
            && (f.freeCancellation ==> o.freeCancellation)
            && (PriceSet(f) ==> o.price.Some?)
  {
  }
}
