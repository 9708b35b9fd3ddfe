/** The group room picker's rates (apps/booking-web/lib/roomPicker.ts): which rates go together in one
booking, and how the picks travel in the address of the booking page. */
module RatePicker {
  import opened Options

  type Method = string
  datatype Schedule = Full | Deposit(percent: int, key: string)
  datatype Offer = Offer(key: string, schedule: Option<Schedule>, methods: Option<seq<Method>>)

  // ----- combinable -----

  /** Two schedules clash only when both are known and differ in kind, or in the deposit's key. */
  predicate Agree(a: Option<Schedule>, b: Option<Schedule>) {
    a.None? || b.None? ||
    (a.value.Full? == b.value.Full? && (a.value.Deposit? && b.value.Deposit? ==> a.value.key == b.value.key))
  }

  ghost predicate Takes(o: Offer, m: Method) { o.methods.Some? ==> m in o.methods.value }

  ghost predicate AllTake(group: seq<Offer>, m: Method) { forall o :: o in group ==> Takes(o, m) }

  /** What one call of `combinable` says yes to. */
  ghost predicate CombinableWith(offer: Offer, chosen: seq<Offer>) {
    && (forall o :: o in chosen ==> Agree(offer.schedule, o.schedule))
    && (offer.methods.Some? ==> exists m :: m in offer.methods.value && AllTake(chosen, m))
  }

  /** `combinable`: a pass over the schedules, then `shared` narrowed by each chosen rate. */
  method Combinable(offer: Offer, chosen: seq<Offer>) returns (ok: bool)
    ensures ok <==> CombinableWith(offer, chosen)
  {
    for i := 0 to |chosen|
      invariant forall k :: 0 <= k < i ==> Agree(offer.schedule, chosen[k].schedule)
    {
      if !Agree(offer.schedule, chosen[i].schedule) {
        assert chosen[i] in chosen;
        return false;
      }
    }
    var shared := offer.methods;
    for i := 0 to |chosen|
      invariant shared.Some? <==> offer.methods.Some?
      invariant shared.Some? ==> forall m ::
                  m in shared.value <==> m in offer.methods.value && forall k :: 0 <= k < i ==> Takes(chosen[k], m)
    {
      if shared.Some? && chosen[i].methods.Some? {
        var narrowed := Narrow(shared.value, chosen[i].methods.value);
        shared := Some(narrowed);
      }
    }
    ok := !(shared.Some? && |shared.value| == 0);
    if shared.Some? {
      assert ok ==> shared.value[0] in shared.value && AllTake(chosen, shared.value[0]);
    }
  }

  function Narrow(s: seq<Method>, methods: seq<Method>): (r: seq<Method>)
    ensures forall m :: m in r <==> m in s && m in methods
  {
    if s == [] then []
    else if s[0] in methods then [s[0]] + Narrow(s[1..], methods)
    else Narrow(s[1..], methods)
  }

  /** The group was put together one rate at a time, each with a yes. */
  ghost predicate AcceptedInOrder(group: seq<Offer>) {
    forall k :: 0 <= k < |group| ==> CombinableWith(group[k], group[..k])
  }

  /** Every known schedule is payment in full. */
  ghost predicate AllInFull(group: seq<Offer>) { forall o :: o in group && o.schedule.Some? ==> o.schedule.value.Full? }

  /** Every known schedule is the same deposit. */
  ghost predicate AllDeposit(group: seq<Offer>, key: string) {
    forall o :: o in group && o.schedule.Some? ==> o.schedule.value.Deposit? && o.schedule.value.key == key
  }

  /** One booking can pay for the whole group: known schedules are all in full or all one deposit, and known methods
  share one. */
  ghost predicate PayableTogether(group: seq<Offer>) {
    (AllInFull(group) || exists key :: AllDeposit(group, key)) && exists m :: AllTake(group, m)
  }

  ghost predicate Pairwise(group: seq<Offer>) { forall a, b :: a in group && b in group ==> Agree(a.schedule, b.schedule) }

  /** Schedules that agree two by two are all the same. */
  lemma OneSchedule(group: seq<Offer>)
    ensures Pairwise(group) <==> AllInFull(group) || exists key :: AllDeposit(group, key)
  {
    if Pairwise(group) {
      if o :| o in group && o.schedule.Some? && o.schedule.value.Deposit? {
        forall p | p in group && p.schedule.Some? ensures p.schedule.value.Deposit? && p.schedule.value.key == o.schedule.value.key {
          assert Agree(o.schedule, p.schedule);
        }
        assert AllDeposit(group, o.schedule.value.key);
      }
    }
  }

  lemma PayableStep(all: seq<Offer>, group: seq<Offer>, offer: Offer)
    requires all == group + [offer]
    ensures PayableTogether(all) <==> PayableTogether(group) && CombinableWith(offer, group)
  {
    assert forall o :: o in all <==> o in group || o == offer;
    OneSchedule(all);
    OneSchedule(group);
    PairwiseStep(all, group, offer);
    if PayableTogether(all) {
      var m :| AllTake(all, m);
      assert AllTake(group, m) && Takes(offer, m);
    }
    if PayableTogether(group) && CombinableWith(offer, group) {
      var m :| (offer.methods.Some? ==> m in offer.methods.value) && AllTake(group, m);
      assert AllTake(all, m);
    }
  }

  lemma PairwiseStep(all: seq<Offer>, group: seq<Offer>, offer: Offer)
    requires all == group + [offer]
    ensures Pairwise(all) <==> Pairwise(group) && forall o :: o in group ==> Agree(offer.schedule, o.schedule)
  {
    assert forall o :: o in all <==> o in group || o == offer;
  }

  lemma AcceptedStep(all: seq<Offer>, group: seq<Offer>, offer: Offer)
    requires all == group + [offer]
    ensures AcceptedInOrder(all) <==> AcceptedInOrder(group) && CombinableWith(offer, group)
  {
    assert all[..|group|] == group && all[|group|] == offer;
    forall k | 0 <= k < |group| ensures all[..k] == group[..k] && all[k] == group[k] {
    }
    if AcceptedInOrder(all) {
      forall k | 0 <= k < |group| ensures CombinableWith(group[k], group[..k]) {
        assert CombinableWith(all[k], all[..k]);
      }
    }
  }

  lemma NothingChosenYet()
    ensures PayableTogether([]) && AcceptedInOrder([])
  {
    assert AllTake([], "");
  }

  /** Adding one at a time accepts exactly the groups one booking can pay for. */
  lemma {:induction false} AcceptsExactlyPayable(group: seq<Offer>)
    ensures AcceptedInOrder(group) <==> PayableTogether(group)
  {
    if group == [] {
      NothingChosenYet();
    } else {
      var init, last := group[..|group| - 1], group[|group| - 1];
      AcceptsExactlyPayable(init);
      PayableStep(group, init, last);
      AcceptedStep(group, init, last);
    }
  }

  /** So the order of choosing never decides. */
  lemma OrderDoesNotMatter(x: seq<Offer>, y: seq<Offer>)
    requires multiset(x) == multiset(y)
    ensures AcceptedInOrder(x) <==> AcceptedInOrder(y)
  {
    AcceptsExactlyPayable(x);
    AcceptsExactlyPayable(y);
    forall o ensures o in x <==> o in y {
      assert o in x <==> o in multiset(x);
      assert o in y <==> o in multiset(y);
    }
    PayableBySet(x, y);
    PayableBySet(y, x);
  }

  lemma PayableBySet(x: seq<Offer>, y: seq<Offer>)
    requires forall o :: o in x <==> o in y
    ensures PayableTogether(x) ==> PayableTogether(y)
  {
    if PayableTogether(x) {
      var m :| AllTake(x, m);
      assert AllTake(y, m);
      if key :| AllDeposit(x, key) { assert AllDeposit(y, key); }
    }
  }

  // ----- encodePick / decodePicks -----

  const MAX_ROOMS := 9
  const OFFER_PREFIX := "pricing-offer.v2:"

  datatype Pick = Pick(adults: int, children: int, offerKey: string)

  function Digit(d: nat): char
    requires d < 10
    ensures Digit(d) == "0123456789"[d]
  {
    '0' + d as char
  }

  predicate IsDigit(c: char) { '0' <= c <= '9' }

  function Decimal(n: nat): string {
    if n < 10 then [Digit(n)] else Decimal(n / 10) + [Digit(n % 10)]
  }

  function Shown(n: int): string { if n < 0 then "-" + Decimal(-n) else Decimal(n) }

  function Encode(p: Pick): string { Shown(p.adults) + "-" + Shown(p.children) + "-" + p.offerKey }

  /** The length of the longest prefix without a dash. */
  function DashAt(s: string): (i: nat)
    ensures i <= |s|
    ensures forall k :: 0 <= k < i ==> s[k] != '-'
    ensures i < |s| ==> s[i] == '-'
  {
    if s == [] || s[0] == '-' then 0 else 1 + DashAt(s[1..])
  }

  predicate AllDigits(s: string) { forall i :: 0 <= i < |s| ==> IsDigit(s[i]) }

  function ValueOf(s: string): nat
    requires AllDigits(s)
  {
    if s == [] then 0 else 10 * ValueOf(s[..|s| - 1]) + (s[|s| - 1] - '0') as int
  }

  predicate IsKey(s: string) {
    && OFFER_PREFIX <= s && |s| == |OFFER_PREFIX| + 64
    && forall i :: |OFFER_PREFIX| <= i < |s| ==> IsDigit(s[i]) || 'a' <= s[i] <= 'f'
  }

  /** The PICK pattern: one or two digits not starting with 0, one or two digits, the key. */
  function MatchPick(value: string): Option<Pick> {
    var i := DashAt(value);
    if i == |value| then None
    else
      var rest := value[i + 1..];
      var j := DashAt(rest);
      if j == |rest| then None
      else
        MatchParts(value[..i], rest[..j], rest[j + 1..])
  }

  function MatchParts(adults: string, children: string, key: string): Option<Pick> {
    if 1 <= |adults| <= 2 && AllDigits(adults) && adults[0] != '0'
       && 1 <= |children| <= 2 && AllDigits(children) && IsKey(key)
    then Some(Pick(ValueOf(adults), ValueOf(children), key))
    else None
  }

  /** `decodePicks`: stops at the first value that does not match. */
  method DecodePicks(values: seq<string>) returns (picks: Option<seq<Pick>>)
    ensures picks.Some? <==> 1 <= |values| <= MAX_ROOMS && forall i :: 0 <= i < |values| ==> MatchPick(values[i]).Some?
    ensures picks.Some? ==>
              |picks.value| == |values| && forall i :: 0 <= i < |values| ==> MatchPick(values[i]) == Some(picks.value[i])
  {
    if |values| == 0 || |values| > MAX_ROOMS { return None; }
    var read: seq<Pick> := [];
    for i := 0 to |values|
      invariant |read| == i && forall k :: 0 <= k < i ==> MatchPick(values[k]) == Some(read[k])
    {
      var one := MatchPick(values[i]);
      if one.None? { return None; }
      read := read + [one.value];
    }
    picks := Some(read);
  }

  /** The picks an address can carry. */
  predicate Encodable(p: Pick) { 1 <= p.adults <= 99 && 0 <= p.children <= 99 && IsKey(p.offerKey) }

  lemma DigitValue(d: nat)
    requires d < 10
    ensures IsDigit(Digit(d)) && (Digit(d) - '0') as int == d
    ensures Digit(d) == '0' <==> d == 0
  {
  }

  lemma {:induction false} DecimalFacts(n: nat)
    ensures |Decimal(n)| >= 1 && AllDigits(Decimal(n)) && ValueOf(Decimal(n)) == n
    ensures |Decimal(n)| <= 2 <==> n <= 99
    ensures |Decimal(n)| == 1 <==> n <= 9
    ensures n > 0 ==> Decimal(n)[0] != '0'
  {
    DigitValue(n % 10);
    if n < 10 {
      assert Decimal(n)[..0] == [];
    } else {
      DecimalFacts(n / 10);
      var s := Decimal(n);
      assert s[..|s| - 1] == Decimal(n / 10);
    }
  }

  lemma {:induction false} DashAfter(a: string, rest: string)
    requires forall i :: 0 <= i < |a| ==> a[i] != '-'
    ensures DashAt(a + "-" + rest) == |a|
    ensures (a + "-" + rest)[..|a|] == a && (a + "-" + rest)[|a| + 1..] == rest
  {
    var s := a + "-" + rest;
    assert s[|a|] == '-';
    assert forall k :: 0 <= k < |a| ==> s[k] == a[k];
  }

  lemma {:induction false} MatchJoined(adults: string, children: string, key: string)
    requires forall i :: 0 <= i < |adults| ==> adults[i] != '-'
    requires forall i :: 0 <= i < |children| ==> children[i] != '-'
    ensures MatchPick(adults + "-" + (children + "-" + key)) == MatchParts(adults, children, key)
  {
    DashAfter(adults, children + "-" + key);
    DashAfter(children, key);
  }

  lemma {:induction false} MatchEmptyFirst(rest: string)
    ensures MatchPick("-" + rest).None?
  {
    DashAfter("", rest);
    assert "" + "-" + rest == "-" + rest;
  }

  lemma {:induction false} PartsOfNumbers(p: Pick)
    requires p.adults >= 0 && p.children >= 0
    ensures MatchParts(Decimal(p.adults), Decimal(p.children), p.offerKey) == if Encodable(p) then Some(p) else None
  {
    DecimalFacts(p.adults);
    DecimalFacts(p.children);
    if p.adults == 0 { assert Decimal(0) == [Digit(0)]; }
  }

  lemma Regroup(a: string, b: string, c: string, d: string, e: string)
    ensures a + b + c + d + e == a + b + (c + d + e)
  {
  }

  lemma EncodeSplit(p: Pick)
    ensures Encode(p) == Shown(p.adults) + "-" + (Shown(p.children) + "-" + p.offerKey)
  {
    Regroup(Shown(p.adults), "-", Shown(p.children), "-", p.offerKey);
  }

  lemma {:induction false} MatchPlain(p: Pick)
    requires p.adults >= 0 && p.children >= 0
    ensures MatchPick(Encode(p)) == MatchParts(Decimal(p.adults), Decimal(p.children), p.offerKey)
  {
    DecimalFacts(p.adults);
    DecimalFacts(p.children);
    MatchJoined(Decimal(p.adults), Decimal(p.children), p.offerKey);
    EncodeSplit(p);
  }

  lemma {:induction false} MatchNegativeAdults(p: Pick)
    requires p.adults < 0
    ensures MatchPick(Encode(p)).None?
  {
    var tail := Decimal(-p.adults) + "-" + Shown(p.children) + "-" + p.offerKey;
    assert Encode(p) == "-" + tail;
    MatchEmptyFirst(tail);
  }

  lemma {:induction false} MatchNegativeChildren(p: Pick)
    requires p.adults >= 0 && p.children < 0
    ensures MatchPick(Encode(p)).None?
  {
    var tail := Decimal(-p.children) + "-" + p.offerKey;
    DecimalFacts(p.adults);
    MatchJoined(Decimal(p.adults), "", tail);
    EncodeSplit(p);
    NegativeTail(Decimal(-p.children), p.offerKey);
    NothingMatches(Decimal(p.adults), tail);
  }

  lemma NegativeTail(digits: string, key: string)
    ensures "-" + digits + "-" + key == "" + "-" + (digits + "-" + key)
  {
  }

  lemma NothingMatches(adults: string, key: string)
    ensures MatchParts(adults, "", key).None?
  {
  }

  /** Reading back an encoded pick gives it exactly when an address can carry it, and nothing otherwise. */
  lemma {:induction false} EncodeThenMatch(p: Pick)
    ensures MatchPick(Encode(p)) == if Encodable(p) then Some(p) else None
  {
    if p.adults < 0 {
      MatchNegativeAdults(p);
    } else if p.children < 0 {
      MatchNegativeChildren(p);
    } else {
      MatchPlain(p);
      PartsOfNumbers(p);
    }
  }

  /** A key is the prefix and 64 lower-case hexadecimal digits. */
  lemma KeyInText(s: string)
    ensures IsKey(s) <==> |s| == 81 && s[..17] == "pricing-offer.v2:" && forall c :: c in s[17..] ==> c in "0123456789abcdef"
  {
    var hex := "0123456789abcdef";
    forall c: char ensures IsDigit(c) || 'a' <= c <= 'f' <==> c in hex { HexDigit(c); }
    if |s| == 81 && s[..17] == OFFER_PREFIX {
      assert forall i :: 17 <= i < 81 ==> s[i] == s[17..][i - 17];
      if IsKey(s) {
        forall c | c in s[17..] ensures c in hex { var i :| 0 <= i < 64 && s[17..][i] == c; }
      }
      if forall c :: c in s[17..] ==> c in hex {
        forall i | 17 <= i < 81 ensures IsDigit(s[i]) || 'a' <= s[i] <= 'f' { assert s[17..][i - 17] in s[17..]; }
      }
    }
  }

  lemma HexDigit(c: char)
    ensures IsDigit(c) || 'a' <= c <= 'f' <==> c in "0123456789abcdef"
  {
    var hex := "0123456789abcdef";
    if IsDigit(c) { assert hex[(c - '0') as int] == c; }
    if 'a' <= c <= 'f' { assert hex[10 + (c - 'a') as int] == c; }
  }

  /** The number a digit stands for. */
  function Number(c: char): nat
    requires IsDigit(c)
  {
    (c - '0') as int
  }

  lemma OneDigit(c: char)
    requires IsDigit(c)
    ensures Number(c) <= 9 && Digit(Number(c)) == c && AllDigits([c]) && ValueOf([c]) == Number(c)
  {
    assert [c][..0] == [];
  }

  lemma TwoDigitsValue(c: char, d: char)
    requires IsDigit(c) && IsDigit(d)
    ensures AllDigits([c, d]) && ValueOf([c, d]) == 10 * Number(c) + Number(d)
  {
    OneDigit(c);
    assert [c, d][..1] == [c];
  }

  lemma DecimalOfTwo(a: nat, b: nat)
    requires a <= 9 && b <= 9
    ensures Decimal(10 * a + b) == if a == 0 then [Digit(b)] else [Digit(a), Digit(b)]
  {
    if a > 0 {
      assert (10 * a + b) / 10 == a && (10 * a + b) % 10 == b;
      assert Decimal(a) == [Digit(a)];
    }
  }

  lemma OneRead(c: char)
    requires IsDigit(c)
    ensures ValueOf([c]) == Number(c) <= 9 && Decimal(Number(c)) == [c]
    ensures c != '0' ==> Number(c) >= 1
  {
    OneDigit(c);
  }

  lemma TwoRead(c: char, d: char)
    requires IsDigit(c) && IsDigit(d)
    ensures AllDigits([c, d]) && ValueOf([c, d]) == 10 * Number(c) + Number(d) <= 99
    ensures Decimal(10 * Number(c) + Number(d)) == if c == '0' then [d] else [c, d]
  {
    OneDigit(c);
    OneDigit(d);
    TwoDigitsValue(c, d);
    DecimalOfTwo(Number(c), Number(d));
  }

  /** The digits are a number's own text, or that of a number up to nine behind a zero. */
  predicate ReadsAs(s: string, n: nat) {
    && n <= 99 && |s| >= 1 && (s[0] != '0' ==> n >= 1)
    && (s == Decimal(n) || (s[0] == '0' && n <= 9 && s == ['0'] + Decimal(n)))
  }

  lemma OneReadsAs(c: char)
    requires IsDigit(c)
    ensures ReadsAs([c], Number(c)) && ValueOf([c]) == Number(c)
  {
    OneRead(c);
  }

  lemma TwoReadsAs(c: char, d: char)
    requires IsDigit(c) && IsDigit(d)
    ensures AllDigits([c, d]) && ReadsAs([c, d], 10 * Number(c) + Number(d)) && ValueOf([c, d]) == 10 * Number(c) + Number(d)
  {
    OneRead(c);
    OneRead(d);
    TwoRead(c, d);
    if c == '0' { assert [c, d] == ['0'] + [d]; }
  }

  lemma DigitsRead(s: string)
    requires 1 <= |s| <= 2 && AllDigits(s)
    ensures exists n: nat :: ReadsAs(s, n) && ValueOf(s) == n
  {
    if |s| == 1 {
      assert s == [s[0]];
      OneReadsAs(s[0]);
    } else {
      assert s == [s[0], s[1]];
      TwoReadsAs(s[0], s[1]);
    }
  }

  /** The pick's text with its children in two digits, the first a zero. */
  function Padded(p: Pick): string
    requires p.adults >= 0 && p.children >= 0
  {
    Decimal(p.adults) + "-" + ((['0'] + Decimal(p.children)) + "-" + p.offerKey)
  }

  lemma MatchPadded(p: Pick)
    requires Encodable(p) && p.children <= 9
    ensures MatchPick(Padded(p)) == Some(p)
  {
    var c := ['0'] + Decimal(p.children);
    DecimalFacts(p.adults);
    DecimalOfTwo(0, p.children);
    DigitValue(p.children);
    TwoDigitsValue('0', Digit(p.children));
    assert c == ['0', Digit(p.children)];
    MatchJoined(Decimal(p.adults), c, p.offerKey);
  }

  lemma MatchedParts(value: string, p: Pick) returns (adults: string, children: string)
    requires MatchPick(value) == Some(p)
    ensures value == adults + "-" + (children + "-" + p.offerKey) && MatchParts(adults, children, p.offerKey) == Some(p)
  {
    var i := DashAt(value);
    var rest := value[i + 1..];
    var j := DashAt(rest);
    adults, children := value[..i], rest[..j];
    assert rest == children + "-" + rest[j + 1..];
    assert value == adults + "-" + rest;
  }

  lemma PartsAreNumbers(adults: string, children: string, p: Pick)
    requires MatchParts(adults, children, p.offerKey) == Some(p)
    ensures Encodable(p) && adults == Decimal(p.adults)
    ensures children == Decimal(p.children) || (p.children <= 9 && children == ['0'] + Decimal(p.children))
  {
    DigitsRead(adults);
    DigitsRead(children);
  }

  /** A value reads as a pick exactly when it is the pick's own text, or that with a single-digit number of children
  written in two digits. */
  lemma MatchExactly(value: string, p: Pick)
    ensures MatchPick(value) == Some(p) <==> Encodable(p) && (value == Encode(p) || (p.children <= 9 && value == Padded(p)))
  {
    if MatchPick(value) == Some(p) {
      var a, c := MatchedParts(value, p);
      PartsAreNumbers(a, c, p);
      EncodeSplit(p);
    }
    if Encodable(p) {
      EncodeThenMatch(p);
      if p.children <= 9 { MatchPadded(p); }
    }
  }

  /** A pick's text: its numbers of one or two digits, most significant first, and its key, between dashes. */
  lemma EncodedText(p: Pick)
    requires 0 <= p.adults <= 99 && 0 <= p.children <= 99
    ensures Encode(p) == TwoDigits(p.adults) + "-" + TwoDigits(p.children) + "-" + p.offerKey
  {
    TwoDigitsDecimal(p.adults);
    TwoDigitsDecimal(p.children);
  }

  lemma TwoDigitsDecimal(n: nat)
    requires n <= 99
    ensures Decimal(n) == TwoDigits(n)
  {
    if n > 9 { assert Decimal(n / 10) == [Digit(n / 10)]; }
  }

  function TwoDigits(n: nat): string
    requires n <= 99
  {
    if n <= 9 then ["0123456789"[n]] else ["0123456789"[n / 10], "0123456789"[n % 10]]
  }

  /** The address round trip of a whole group, with its exact condition. */
  method EncodeThenDecode(picks: seq<Pick>) returns (back: Option<seq<Pick>>)
    ensures back == if 1 <= |picks| <= MAX_ROOMS && forall i :: 0 <= i < |picks| ==> Encodable(picks[i]) then Some(picks) else None
  {
    var values := seq(|picks|, i requires 0 <= i < |picks| => Encode(picks[i]));
    forall i | 0 <= i < |picks| ensures MatchPick(values[i]) == if Encodable(picks[i]) then Some(picks[i]) else None {
      EncodeThenMatch(picks[i]);
    }
    back := DecodePicks(values);
    if back.Some? { assert back.value == picks; }
  }
}
