/** The one-time hotel id unification (apps/pms-api/scripts/unify_hotel_ids.py), with no other writer. */
module HotelIdMigration {
  import opened Options
  import opened RowUpdates
  import opened OrphanStubs

  datatype Child = Child(hotel: Option<Id>, data: nat)

  /** A child table with its unique keys on hotel_id: for each, what else of the row it covers (nothing, as a constant,
  for hotel_payment_settings; the room number for rooms). */
  datatype Table = Table(keys: seq<nat -> nat>, rows: seq<Child>)
  datatype Pair = Pair(oldId: Id, newId: Id)

  // ----- tables -----

  /** Every child row without a NULL points at a hotel: the foreign key of one table. */
  predicate Referenced(hotels: seq<Hotel>, rows: seq<Child>) {
    forall r :: 0 <= r < |rows| && rows[r].hotel.Some? ==> HasId(hotels, rows[r].hotel.value)
  }

  // ----- the mapping -----

  /** The booking hotel's id for a key. */
  function BookingId(booking: seq<Hotel>, key: Key): Option<Id> {
    if booking == [] then None
    else if booking[0].key == key then Some(booking[0].id)
    else BookingId(booking[1..], key)
  }

  function MappingOf(pms: seq<Hotel>, booking: seq<Hotel>): seq<Pair> {
    if pms == [] then []
    else
      var before := MappingOf(pms[..|pms| - 1], booking);
      var h := pms[|pms| - 1];
      match BookingId(booking, h.key)
      case None => before
      case Some(id) => before + [Pair(h.id, id)]
  }

  function OrphansOf(pms: seq<Hotel>, booking: seq<Hotel>): seq<Hotel> {
    if pms == [] then []
    else
      var before := OrphansOf(pms[..|pms| - 1], booking);
      var h := pms[|pms| - 1];
      if BookingId(booking, h.key).None? then before + [h] else before
  }

  datatype Fetched = DuplicateKey | Fetched(mapping: seq<Pair>, orphans: seq<Hotel>)

  lemma {:induction false} BookingIdFinds(booking: seq<Hotel>, key: Key)
    ensures BookingId(booking, key).None? <==> forall i :: 0 <= i < |booking| ==> booking[i].key != key
    ensures BookingId(booking, key).Some? ==>
              exists i :: 0 <= i < |booking| && booking[i].key == key && booking[i].id == BookingId(booking, key).value
  {
    if booking != [] && booking[0].key != key {
      BookingIdFinds(booking[1..], key);
      if BookingId(booking, key).Some? {
        var i :| 0 <= i < |booking[1..]| && booking[1..][i].key == key && booking[1..][i].id == BookingId(booking, key).value;
        assert booking[i + 1].key == key;
      }
      assert forall i :: 1 <= i < |booking| ==> booking[i] == booking[1..][i - 1];
    }
  }

  /** The keyed dictionary of a table, built row by row; None when a key comes twice. */
  method ByKey(rows: seq<Hotel>) returns (dict: Option<map<Key, Id>>)
    ensures dict.Some? <==> DistinctKeys(rows)
    ensures dict.Some? ==> forall k :: k in dict.value <==> BookingId(rows, k).Some?
    ensures dict.Some? ==> forall k :: k in dict.value ==> BookingId(rows, k) == Some(dict.value[k])
  {
    var m: map<Key, Id> := map[];
    for i := 0 to |rows|
      invariant DistinctKeys(rows[..i])
      invariant forall k :: k in m <==> exists j :: 0 <= j < i && rows[j].key == k
      invariant forall j :: 0 <= j < i ==> rows[j].key in m && m[rows[j].key] == rows[j].id
    {
      if rows[i].key in m { return None; }
      m := m[rows[i].key := rows[i].id];
    }
    assert rows[..|rows|] == rows;
    forall k ensures k in m <==> BookingId(rows, k).Some? { BookingIdFinds(rows, k); }
    forall k | k in m ensures BookingId(rows, k) == Some(m[k]) { BookingIdFinds(rows, k); }
    dict := Some(m);
  }

  /** `fetch_mapping`. */
  method FetchMapping(pms: seq<Hotel>, booking: seq<Hotel>) returns (f: Fetched)
    ensures f.Fetched? <==> DistinctKeys(pms) && DistinctKeys(booking)
    ensures f.Fetched? ==> f.mapping == MappingOf(pms, booking) && f.orphans == OrphansOf(pms, booking)
  {
    var bookingByKey := ByKey(booking);
    if bookingByKey.None? { return DuplicateKey; }
    var pmsByKey := ByKey(pms);
    if pmsByKey.None? { return DuplicateKey; }
    var mapping: seq<Pair>, orphans: seq<Hotel> := [], [];
    for i := 0 to |pms|
      invariant mapping == MappingOf(pms[..i], booking) && orphans == OrphansOf(pms[..i], booking)
    {
      var h := pms[i];
      assert pms[..i + 1][..i] == pms[..i];
      if h.key in bookingByKey.value {
        mapping := mapping + [Pair(h.id, bookingByKey.value[h.key])];
      } else {
        orphans := orphans + [h];
      }
    }
    assert pms[..|pms|] == pms;
    f := Fetched(mapping, orphans);
  }

  lemma {:induction false} MappingEntries(pms: seq<Hotel>, booking: seq<Hotel>)
    ensures |MappingOf(pms, booking)| + |OrphansOf(pms, booking)| == |pms|
    ensures forall p :: p in MappingOf(pms, booking) ==>
                          exists i :: 0 <= i < |pms| && pms[i].id == p.oldId && BookingId(booking, pms[i].key) == Some(p.newId)
    ensures forall h :: h in OrphansOf(pms, booking) ==> h in pms && BookingId(booking, h.key).None?
  {
    if pms != [] {
      var n := |pms| - 1;
      MappingEntries(pms[..n], booking);
      assert forall i :: 0 <= i < n ==> pms[..n][i] == pms[i];
    }
  }

  ghost predicate DistinctOld(mapping: seq<Pair>) {
    forall i, j :: 0 <= i < j < |mapping| ==> mapping[i].oldId != mapping[j].oldId
  }

  ghost predicate DistinctNew(mapping: seq<Pair>) {
    forall i, j :: 0 <= i < j < |mapping| ==> mapping[i].newId != mapping[j].newId
  }

  /** Two hotels of different keys never get one id: the mapping can be stored with both columns unique. */
  lemma {:induction false} MappingIsOneToOne(pms: seq<Hotel>, booking: seq<Hotel>)
    requires DistinctIds(pms) && DistinctKeys(pms) && DistinctIds(booking)
    ensures DistinctOld(MappingOf(pms, booking)) && DistinctNew(MappingOf(pms, booking))
  {
    if pms != [] {
      var n := |pms| - 1;
      var before := MappingOf(pms[..n], booking);
      MappingIsOneToOne(pms[..n], booking);
      if BookingId(booking, pms[n].key).Some? {
        MappingEntries(pms[..n], booking);
        BookingIdFinds(booking, pms[n].key);
        forall k | 0 <= k < |before| ensures before[k].oldId != pms[n].id && Some(before[k].newId) != BookingId(booking, pms[n].key) {
          assert before[k] in before;
          var i :| 0 <= i < n && pms[i].id == before[k].oldId && BookingId(booking, pms[i].key) == Some(before[k].newId);
          BookingIdFinds(booking, pms[i].key);
        }
      }
    }
  }

  // ----- the pre-flight check -----

  ghost function Olds(mapping: seq<Pair>): set<Id> {
    if mapping == [] then {} else Olds(mapping[1..]) + {mapping[0].oldId}
  }

  lemma {:induction false} OldsMembers(mapping: seq<Pair>, id: Id)
    ensures id in Olds(mapping) <==> Mapped(mapping, id)
  {
    if mapping != [] {
      OldsMembers(mapping[1..], id);
      if Mapped(mapping[1..], id) {
        var k :| 0 <= k < |mapping[1..]| && mapping[1..][k].oldId == id;
        assert mapping[k + 1].oldId == id;
      }
      if Mapped(mapping, id) {
        var k :| 0 <= k < |mapping| && mapping[k].oldId == id;
        assert k > 0 ==> mapping[1..][k - 1].oldId == id;
      }
    }
  }

  lemma {:induction false} OldsSize(mapping: seq<Pair>)
    requires DistinctOld(mapping)
    ensures |Olds(mapping)| == |mapping|
  {
    if mapping != [] {
      OldsSize(mapping[1..]);
      OldsMembers(mapping[1..], mapping[0].oldId);
      assert forall k :: 1 <= k < |mapping| ==> mapping[k] == mapping[1..][k - 1];
    }
  }

  ghost function Ids(hotels: seq<Hotel>): set<Id> {
    if hotels == [] then {} else Ids(hotels[1..]) + {hotels[0].id}
  }

  lemma {:induction false} IdsAreFew(hotels: seq<Hotel>)
    ensures forall id :: id in Ids(hotels) <==> exists k :: 0 <= k < |hotels| && hotels[k].id == id
    ensures |Ids(hotels)| <= |hotels|
  {
    if hotels != [] {
      IdsAreFew(hotels[1..]);
      assert forall k :: 1 <= k < |hotels| ==> hotels[k] == hotels[1..][k - 1];
    }
  }

  lemma FullSubset<T>(s: set<T>, t: set<T>)
    requires s <= t && |s| >= |t|
    ensures s == t
  {
    assert t == s + (t - s);
    assert |t| == |s| + |t - s|;
  }

  ghost predicate Mapped(mapping: seq<Pair>, id: Id) { exists k :: 0 <= k < |mapping| && mapping[k].oldId == id }

  /** Equal counts make the mapping total: every hotel has a pair. */
  lemma CountCheckSuffices(hotels: seq<Hotel>, mapping: seq<Pair>)
    requires DistinctOld(mapping) && |hotels| == |mapping|
    requires forall k :: 0 <= k < |mapping| ==> HasId(hotels, mapping[k].oldId)
    ensures forall i :: 0 <= i < |hotels| ==> Mapped(mapping, hotels[i].id)
  {
    OldsSize(mapping);
    IdsAreFew(hotels);
    forall id | id in Olds(mapping) ensures id in Ids(hotels) {
      OldsMembers(mapping, id);
      var k :| 0 <= k < |mapping| && mapping[k].oldId == id;
      assert HasId(hotels, mapping[k].oldId);
    }
    FullSubset(Olds(mapping), Ids(hotels));
    forall i | 0 <= i < |hotels| ensures Mapped(mapping, hotels[i].id) {
      assert hotels[i].id in Ids(hotels);
      OldsMembers(mapping, hotels[i].id);
    }
  }

  // ----- the migration -----

  /** `id_mapping` joined on old_id: the new id, or the id itself where no pair matches. */
  function NewId(mapping: seq<Pair>, id: Id): Id {
    if mapping == [] then id
    else if mapping[0].oldId == id then mapping[0].newId
    else NewId(mapping[1..], id)
  }

  function RenamedChild(mapping: seq<Pair>, c: Child): Child {
    if c.hotel.None? then c else c.(hotel := Some(NewId(mapping, c.hotel.value)))
  }

  function RenamedHotel(mapping: seq<Pair>, h: Hotel): Hotel { h.(id := NewId(mapping, h.id)) }

  function ChildRename(mapping: seq<Pair>): Child -> Child { (c: Child) => RenamedChild(mapping, c) }
  function HotelRename(mapping: seq<Pair>): Hotel -> Hotel { (h: Hotel) => RenamedHotel(mapping, h) }

  function RenamedRows(mapping: seq<Pair>, rows: seq<Child>): seq<Child> { Renamed(rows, ChildRename(mapping)) }
  function RenamedHotels(mapping: seq<Pair>, hotels: seq<Hotel>): seq<Hotel> { Renamed(hotels, HotelRename(mapping)) }

  /** The primary key of hotels. */
  function SameId(): (Hotel, Hotel) -> bool { (a: Hotel, b: Hotel) => a.id == b.id }

  /** The unique keys of a child table; a NULL clashes with nothing. */
  predicate KeysClash(keys: seq<nat -> nat>, a: Child, b: Child) {
    a.hotel.Some? && a.hotel == b.hotel && exists k :: 0 <= k < |keys| && keys[k](a.data) == keys[k](b.data)
  }

  function SameKey(keys: seq<nat -> nat>): (Child, Child) -> bool { (a: Child, b: Child) => KeysClash(keys, a, b) }

  lemma {:induction false} NewIdFinds(mapping: seq<Pair>, id: Id)
    ensures (exists k :: 0 <= k < |mapping| && mapping[k].oldId == id && mapping[k].newId == NewId(mapping, id)) ||
            ((forall k :: 0 <= k < |mapping| ==> mapping[k].oldId != id) && NewId(mapping, id) == id)
  {
    if mapping != [] && mapping[0].oldId != id {
      NewIdFinds(mapping[1..], id);
      if k :| 0 <= k < |mapping[1..]| && mapping[1..][k].oldId == id && mapping[1..][k].newId == NewId(mapping, id) {
        assert mapping[k + 1].oldId == id;
      } else {
        assert forall k :: 1 <= k < |mapping| ==> mapping[k] == mapping[1..][k - 1];
      }
    }
  }

  /** A total one-to-one mapping keeps hotel ids distinct, however old and new ids overlap. */
  lemma RenamingKeepsIdsDistinct(hotels: seq<Hotel>, mapping: seq<Pair>)
    requires DistinctIds(hotels) && DistinctNew(mapping)
    requires forall i :: 0 <= i < |hotels| ==> Mapped(mapping, hotels[i].id)
    ensures DistinctIds(RenamedHotels(mapping, hotels))
  {
    forall i, j | 0 <= i < j < |hotels| ensures NewId(mapping, hotels[i].id) != NewId(mapping, hotels[j].id) {
      NewIdFinds(mapping, hotels[i].id);
      NewIdFinds(mapping, hotels[j].id);
      assert Mapped(mapping, hotels[i].id) && Mapped(mapping, hotels[j].id);
      var k :| 0 <= k < |mapping| && mapping[k].oldId == hotels[i].id && mapping[k].newId == NewId(mapping, hotels[i].id);
      var l :| 0 <= l < |mapping| && mapping[l].oldId == hotels[j].id && mapping[l].newId == NewId(mapping, hotels[j].id);
      assert k != l;
    }
  }

  lemma RenamingKeepsReferences(hotels: seq<Hotel>, rows: seq<Child>, mapping: seq<Pair>)
    requires Referenced(hotels, rows)
    ensures Referenced(RenamedHotels(mapping, hotels), RenamedRows(mapping, rows))
  {
    var after := RenamedHotels(mapping, hotels);
    forall r | 0 <= r < |rows| && rows[r].hotel.Some? ensures HasId(after, NewId(mapping, rows[r].hotel.value)) {
      var i :| 0 <= i < |hotels| && hotels[i].id == rows[r].hotel.value;
      assert after[i].id == NewId(mapping, hotels[i].id);
    }
  }

  datatype Outcome = DryRun | Committed | Raised

  ghost predicate Schema(hotels: seq<Hotel>, tables: seq<Table>) {
    && DistinctIds(hotels)
    && (forall t :: 0 <= t < |tables| ==> Referenced(hotels, tables[t].rows) && Unique(tables[t].rows, SameKey(tables[t].keys)))
  }

  /** Every row of every table is the old row under the new name of the same hotel. */
  ghost predicate PureRenaming(hotels: seq<Hotel>, tables: seq<Table>, hotels': seq<Hotel>, tables': seq<Table>) {
    && |hotels'| == |hotels| && |tables'| == |tables|
    && Schema(hotels', tables')
    && (forall i :: 0 <= i < |hotels| ==> hotels'[i] == hotels[i].(id := hotels'[i].id))
    && (forall t :: 0 <= t < |tables| ==> RowsRenamed(hotels, hotels', tables[t], tables'[t]))
  }

  ghost predicate RowsRenamed(hotels: seq<Hotel>, hotels': seq<Hotel>, table: Table, table': Table)
    requires |hotels'| == |hotels|
  {
    && table'.keys == table.keys && |table'.rows| == |table.rows|
    && (forall r :: 0 <= r < |table.rows| && table.rows[r].hotel.None? ==> table'.rows[r] == table.rows[r])
    && (forall r, i :: 0 <= r < |table.rows| && 0 <= i < |hotels| && table.rows[r].hotel == Some(hotels[i].id)
                       ==> table'.rows[r] == table.rows[r].(hotel := Some(hotels'[i].id)))
  }

  function RenamedTables(mapping: seq<Pair>, tables: seq<Table>): seq<Table> {
    seq(|tables|, t requires 0 <= t < |tables| => tables[t].(rows := RenamedRows(mapping, tables[t].rows)))
  }

  lemma RenamedIsPure(hotels: seq<Hotel>, tables: seq<Table>, mapping: seq<Pair>)
    requires Schema(hotels, tables) && DistinctIds(RenamedHotels(mapping, hotels))
    requires forall t :: 0 <= t < |tables| ==> Unique(RenamedRows(mapping, tables[t].rows), SameKey(tables[t].keys))
    ensures PureRenaming(hotels, tables, RenamedHotels(mapping, hotels), RenamedTables(mapping, tables))
  {
    forall t | 0 <= t < |tables| ensures Referenced(RenamedHotels(mapping, hotels), RenamedTables(mapping, tables)[t].rows) {
      RenamingKeepsReferences(hotels, tables[t].rows, mapping);
    }
  }

  // ----- the updates under their keys -----

  /** The order in which each UPDATE happens to visit its rows. */
  datatype Plan = Plan(parent: seq<nat>, children: seq<seq<nat>>)

  ghost predicate PlanFor(plan: Plan, hotels: seq<Hotel>, tables: seq<Table>) {
    && Visits(plan.parent, |hotels|) && |plan.children| == |tables|
    && (forall t :: 0 <= t < |tables| ==> Visits(plan.children[t], |tables[t].rows|))
  }

  ghost predicate TableGoes(mapping: seq<Pair>, table: Table, check: KeyCheck, order: seq<nat>)
    requires Visits(order, |table.rows|)
  {
    Goes(table.rows, ChildRename(mapping), SameKey(table.keys), check, order)
  }

  ghost predicate ParentGoes(mapping: seq<Pair>, hotels: seq<Hotel>, check: KeyCheck, order: seq<nat>)
    requires Visits(order, |hotels|)
  {
    Goes(hotels, HotelRename(mapping), SameId(), check, order)
  }

  /** Every UPDATE of the migration goes through. */
  ghost predicate AllGo(mapping: seq<Pair>, hotels: seq<Hotel>, tables: seq<Table>, check: KeyCheck, plan: Plan)
    requires PlanFor(plan, hotels, tables)
  {
    && (forall t :: 0 <= t < |tables| ==> TableGoes(mapping, tables[t], check, plan.children[t]))
    && ParentGoes(mapping, hotels, check, plan.parent)
  }

  lemma UniqueIds(hotels: seq<Hotel>)
    ensures Unique(hotels, SameId()) <==> DistinctIds(hotels)
  {
    if Unique(hotels, SameId()) {
      forall i, j | 0 <= i < j < |hotels| ensures hotels[i].id != hotels[j].id { assert !SameId()(hotels[i], hotels[j]); }
    }
  }

  /** The child UPDATE of one table. */
  method UpdateTable(table: Table, mapping: seq<Pair>, check: KeyCheck, order: seq<nat>) returns (after: Option<seq<Child>>)
    requires Visits(order, |table.rows|)
    ensures after == if TableGoes(mapping, table, check, order) then Some(RenamedRows(mapping, table.rows)) else None
  {
    after := UpdateRows(table.rows, ChildRename(mapping), SameKey(table.keys), check, order);
  }

  /** The UPDATE of the hotels. */
  method UpdateParent(hotels: seq<Hotel>, mapping: seq<Pair>, check: KeyCheck, order: seq<nat>) returns (after: Option<seq<Hotel>>)
    requires Visits(order, |hotels|)
    ensures after == if ParentGoes(mapping, hotels, check, order) then Some(RenamedHotels(mapping, hotels)) else None
  {
    after := UpdateRows(hotels, HotelRename(mapping), SameId(), check, order);
  }

  /** Both columns of the temporary table are unique. */
  method StoreMapping(mapping: seq<Pair>) returns (stored: bool)
    ensures stored <==> DistinctOld(mapping) && DistinctNew(mapping)
  {
    for i := 0 to |mapping|
      invariant DistinctOld(mapping[..i]) && DistinctNew(mapping[..i])
    {
      if exists k :: 0 <= k < i && (mapping[k].oldId == mapping[i].oldId || mapping[k].newId == mapping[i].newId) {
        return false;
      }
    }
    assert mapping[..|mapping|] == mapping;
    stored := true;
  }

  /** Both databases: PMS hotels and their child tables, and the booking hotels. */
  class Databases {
    var hotels: seq<Hotel>
    var tables: seq<Table>
    var booking: seq<Hotel>

    constructor (hotels: seq<Hotel>, tables: seq<Table>, booking: seq<Hotel>)
      ensures this.hotels == hotels && this.tables == tables && this.booking == booking
    {
      this.hotels, this.tables, this.booking := hotels, tables, booking;
    }

    /** The child UPDATEs, table after table. */
    method UpdateChildren(mapping: seq<Pair>, check: KeyCheck, plan: Plan) returns (after: Option<seq<Table>>)
      requires PlanFor(plan, hotels, tables)
      ensures after.Some? <==> forall t :: 0 <= t < |tables| ==> TableGoes(mapping, tables[t], check, plan.children[t])
      ensures after.Some? ==> after.value == RenamedTables(mapping, tables)
    {
      var children: seq<Table> := [];
      for t := 0 to |tables|
        invariant |children| == t && forall k :: 0 <= k < t ==> children[k] == tables[k].(rows := RenamedRows(mapping, tables[k].rows))
        invariant forall k :: 0 <= k < t ==> TableGoes(mapping, tables[k], check, plan.children[k])
      {
        var rows := UpdateTable(tables[t], mapping, check, plan.children[t]);
        if rows.None? { return None; }
        children := children + [tables[t].(rows := rows.value)];
      }
      assert children == RenamedTables(mapping, tables);
      after := Some(children);
    }

    /** `run_migration`: everything inside one transaction, so a raised error leaves the tables alone. */
    method RunMigration(mapping: seq<Pair>, check: KeyCheck, plan: Plan) returns (outcome: Outcome)
      requires Schema(hotels, tables) && PlanFor(plan, hotels, tables)
      modifies this`hotels, this`tables
      ensures outcome == if DistinctOld(mapping) && DistinctNew(mapping) && |old(hotels)| == |mapping|
                            && AllGo(mapping, old(hotels), old(tables), check, plan) then Committed else Raised
      ensures outcome == Raised ==> hotels == old(hotels) && tables == old(tables)
      ensures outcome == Committed ==> hotels == RenamedHotels(mapping, old(hotels))
      ensures outcome == Committed ==> PureRenaming(old(hotels), old(tables), hotels, tables)
    {
      var stored := StoreMapping(mapping);
      if !stored || |hotels| != |mapping| { return Raised; }
      var children := UpdateChildren(mapping, check, plan);
      if children.None? { return Raised; }
      var parents := UpdateParent(hotels, mapping, check, plan.parent);
      if parents.None? { return Raised; }
      UniqueIds(parents.value);
      RenamedIsPure(hotels, tables, mapping);
      for t := 0 to |tables|
        invariant forall k :: 0 <= k < t ==> Referenced(parents.value, children.value[k].rows)
      {
        if !Referenced(parents.value, children.value[t].rows) { return Raised; }
      }
      hotels, tables := parents.value, children.value;
      outcome := Committed;
    }

    /** `reconcile_orphans`: a booking row under the same id, unless that id is taken. */
    method ReconcileOrphans(orphans: seq<Hotel>)
      requires DistinctIds(booking)
      modifies this`booking
      ensures DistinctIds(booking) && old(booking) <= booking
      ensures forall id :: HasId(booking, id) <==> HasId(old(booking), id) || HasId(orphans, id)
      ensures forall i :: |old(booking)| <= i < |booking| ==> NewRow(old(booking), orphans, booking[i])
      ensures DistinctIds(orphans) ==>
                forall k :: 0 <= k < |orphans| && !HasId(old(booking), orphans[k].id) ==>
                  HasStub(booking, |old(booking)|, orphans[k])
      ensures booking == Reconciled(old(booking), orphans)
    {
      for n := 0 to |orphans|
        invariant booking == Reconciled(old(booking), orphans[..n])
      {
        assert orphans[..n + 1][..n] == orphans[..n];
        var o := orphans[n];
        if !HasId(booking, o.id) {
          booking := booking + [o.(name := if o.name == "" then "Untitled Property" else o.name)];
        }
      }
      assert orphans[..|orphans|] == orphans;
      ghost var was := old(booking);
      ReconciledDistinct(was, orphans);
      forall id ensures HasId(booking, id) <==> HasId(was, id) || HasId(orphans, id) { ReconciledIds(was, orphans, id); }
      forall i | |was| <= i < |booking| ensures NewRow(was, orphans, booking[i]) { AddedAreStubs(was, orphans, i); }
      if DistinctIds(orphans) {
        forall k | 0 <= k < |orphans| && !HasId(was, orphans[k].id) ensures HasStub(booking, |was|, orphans[k]) {
          OwnStub(was, orphans, k);
        }
      }
    }

    /** The script: fetch, stub the orphans, fetch again, migrate. */
    method Unify(execute: bool, check: KeyCheck, plan: Plan) returns (outcome: Outcome)
      requires Schema(hotels, tables) && DistinctIds(booking) && PlanFor(plan, hotels, tables)
      modifies this
      ensures outcome == Committed ==> execute && PureRenaming(old(hotels), old(tables), hotels, tables)
      ensures outcome == Committed ==>
                forall i :: 0 <= i < |hotels| ==> BookingId(booking, hotels[i].key) == Some(hotels[i].id)
      ensures outcome != Committed ==> hotels == old(hotels) && tables == old(tables)
      ensures outcome == DryRun <==> KeysDistinct(old(hotels), old(booking)) && !execute
      ensures outcome == Committed <==>
                && execute && KeysDistinct(old(hotels), old(booking)) && AllPlaceable(old(hotels), old(booking))
                && AllGo(MappingOf(old(hotels), BookingAfter(old(hotels), old(booking))), old(hotels), old(tables), check, plan)
      ensures old(booking) <= booking && (!execute ==> booking == old(booking))
      ensures booking == if execute && KeysDistinct(old(hotels), old(booking)) then BookingAfter(old(hotels), old(booking))
                         else old(booking)
    {
      AfterReconciling(hotels, booking);
      ReconciledDistinct(booking, OrphansOf(hotels, booking));
      var f := FetchMapping(hotels, booking);
      if f.DuplicateKey? { return Raised; }
      if f.orphans != [] && execute {
        ReconcileOrphans(f.orphans);
        f := FetchMapping(hotels, booking);
        if f.DuplicateKey? || f.orphans != [] { return Raised; }
      }
      if !execute { return DryRun; }
      FetchedIsTotal(hotels, booking);
      outcome := RunMigration(f.mapping, check, plan);
      if outcome == Committed { MappingGivesBookingIds(old(hotels), booking); }
    }
  }

  /** No (user, slug) comes twice on either side. */
  ghost predicate KeysDistinct(pms: seq<Hotel>, booking: seq<Hotel>) { DistinctKeys(pms) && DistinctKeys(booking) }

  /** Every hotel has a booking row of its user and slug, or its id is free for one. */
  ghost predicate AllPlaceable(pms: seq<Hotel>, booking: seq<Hotel>) {
    forall i :: 0 <= i < |pms| ==> HasKey(booking, pms[i].key) || !HasId(booking, pms[i].id)
  }

  /** The booking rows after the orphans were given theirs. */
  function BookingAfter(pms: seq<Hotel>, booking: seq<Hotel>): seq<Hotel> { Reconciled(booking, OrphansOf(pms, booking)) }

  lemma KeyNotThere(booking: seq<Hotel>, key: Key)
    ensures BookingId(booking, key).Some? <==> HasKey(booking, key)
  {
    BookingIdFinds(booking, key);
  }

  lemma {:induction false} OrphansAre(pms: seq<Hotel>, booking: seq<Hotel>, h: Hotel)
    ensures h in OrphansOf(pms, booking) <==> h in pms && !HasKey(booking, h.key)
  {
    KeyNotThere(booking, h.key);
    if pms != [] {
      var n := |pms| - 1;
      OrphansAre(pms[..n], booking, h);
      KeyNotThere(booking, pms[n].key);
      assert pms == pms[..n] + [pms[n]];
    }
  }

  /** Orphans are as different as the hotels they come from. */
  lemma {:induction false} OrphansApart(pms: seq<Hotel>, booking: seq<Hotel>)
    requires DistinctIds(pms)
    ensures DistinctIds(OrphansOf(pms, booking))
  {
    if pms != [] {
      var n := |pms| - 1;
      var before := OrphansOf(pms[..n], booking);
      OrphansApart(pms[..n], booking);
      if HasId(before, pms[n].id) {
        var k :| 0 <= k < |before| && before[k].id == pms[n].id;
        assert before[k] in before;
        OrphansAre(pms[..n], booking, before[k]);
      }
      if !HasId(before, pms[n].id) { DistinctMore(before, pms[n]); }
    }
  }

  lemma OneOfEachKey(pms: seq<Hotel>, a: Hotel, b: Hotel)
    requires DistinctKeys(pms) && a in pms && b in pms && a.key == b.key
    ensures a == b
  {
    var i :| 0 <= i < |pms| && pms[i] == a;
    var j :| 0 <= j < |pms| && pms[j] == b;
    assert i == j;
  }

  /** A new booking row belongs to a hotel without one. */
  lemma NewRowIsOrphans(pms: seq<Hotel>, booking: seq<Hotel>, h: Hotel) returns (o: Hotel)
    requires NewRow(booking, OrphansOf(pms, booking), h)
    ensures o in pms && IsStub(h, o) && !HasKey(booking, o.key) && !HasId(booking, o.id)
  {
    var orphans := OrphansOf(pms, booking);
    var k :| 0 <= k < |orphans| && IsStub(h, orphans[k]) && !HasId(booking, orphans[k].id);
    o := orphans[k];
    assert o in orphans;
    OrphansAre(pms, booking, o);
  }

  lemma KeysStayApart(pms: seq<Hotel>, booking: seq<Hotel>, i: nat, j: nat)
    requires KeysDistinct(pms, booking) && DistinctIds(booking) && i < j < |BookingAfter(pms, booking)|
    ensures BookingAfter(pms, booking)[i].key != BookingAfter(pms, booking)[j].key
  {
    var orphans, after := OrphansOf(pms, booking), BookingAfter(pms, booking);
    ReconciledDistinct(booking, orphans);
    if j < |booking| {
      assert booking[i] == after[i] && booking[j] == after[j];
    } else {
      AddedAreStubs(booking, orphans, j);
      var o := NewRowIsOrphans(pms, booking, after[j]);
      if i < |booking| {
        assert after[i] == booking[i];
      } else {
        AddedAreStubs(booking, orphans, i);
        var p := NewRowIsOrphans(pms, booking, after[i]);
        if p.key == o.key { OneOfEachKey(pms, p, o); }
      }
    }
  }

  lemma KeysAfter(pms: seq<Hotel>, booking: seq<Hotel>, h: Hotel)
    requires KeysDistinct(pms, booking) && DistinctIds(pms) && DistinctIds(booking) && h in pms
    ensures HasKey(BookingAfter(pms, booking), h.key) <==> HasKey(booking, h.key) || !HasId(booking, h.id)
  {
    var orphans, after := OrphansOf(pms, booking), BookingAfter(pms, booking);
    ReconciledDistinct(booking, orphans);
    if k :| 0 <= k < |booking| && booking[k].key == h.key { assert after[k].key == h.key; }
    if !HasKey(booking, h.key) && !HasId(booking, h.id) {
      OrphansAre(pms, booking, h);
      var k :| 0 <= k < |orphans| && orphans[k] == h;
      OrphansApart(pms, booking);
      OwnStub(booking, orphans, k);
      var i :| |booking| <= i < |after| && IsStub(after[i], h);
    }
    if k :| 0 <= k < |after| && after[k].key == h.key && k >= |booking| {
      AddedAreStubs(booking, orphans, k);
      var o := NewRowIsOrphans(pms, booking, after[k]);
      OneOfEachKey(pms, o, h);
    } else if HasKey(after, h.key) {
      var k :| 0 <= k < |after| && after[k].key == h.key;
      assert booking[k].key == h.key;
    }
  }

  /** After reconciling, keys are still distinct, and a hotel is left without a booking row exactly when it had none and
  its id was taken. */
  lemma AfterReconciling(pms: seq<Hotel>, booking: seq<Hotel>)
    requires DistinctIds(pms) && DistinctIds(booking)
    ensures OrphansOf(pms, booking) == [] ==> BookingAfter(pms, booking) == booking
    ensures KeysDistinct(pms, booking) ==> DistinctKeys(BookingAfter(pms, booking))
    ensures KeysDistinct(pms, booking) ==> (OrphansOf(pms, BookingAfter(pms, booking)) == [] <==> AllPlaceable(pms, booking))
  {
    if KeysDistinct(pms, booking) {
      var after := BookingAfter(pms, booking);
      forall i, j | 0 <= i < j < |after| ensures after[i].key != after[j].key { KeysStayApart(pms, booking, i, j); }
      NoneLeft(pms, booking);
    }
  }

  lemma NoneLeft(pms: seq<Hotel>, booking: seq<Hotel>)
    requires KeysDistinct(pms, booking) && DistinctIds(pms) && DistinctIds(booking)
    ensures OrphansOf(pms, BookingAfter(pms, booking)) == [] <==> AllPlaceable(pms, booking)
  {
    var after := BookingAfter(pms, booking);
    var left := OrphansOf(pms, after);
    if left != [] {
      assert left[0] in left;
      OrphansAre(pms, after, left[0]);
      KeysAfter(pms, booking, left[0]);
      var i :| 0 <= i < |pms| && pms[i] == left[0];
    } else {
      forall i | 0 <= i < |pms| ensures HasKey(booking, pms[i].key) || !HasId(booking, pms[i].id) {
        OrphansAre(pms, after, pms[i]);
        KeysAfter(pms, booking, pms[i]);
      }
    }
  }

  /** The fetched mapping, when it has no orphans, gives every hotel its booking id. */
  lemma MappingGivesBookingIds(pms: seq<Hotel>, booking: seq<Hotel>)
    requires DistinctIds(pms) && DistinctKeys(pms) && DistinctIds(booking) && OrphansOf(pms, booking) == []
    ensures forall i :: 0 <= i < |pms| ==> BookingId(booking, pms[i].key) == Some(NewId(MappingOf(pms, booking), pms[i].id))
  {
    var m := MappingOf(pms, booking);
    MappingEntries(pms, booking);
    MappingIsOneToOne(pms, booking);
    forall k | 0 <= k < |m| ensures HasId(pms, m[k].oldId) { assert m[k] in m; }
    CountCheckSuffices(pms, m);
    forall i | 0 <= i < |pms| ensures BookingId(booking, pms[i].key) == Some(NewId(m, pms[i].id)) {
      NewIdFinds(m, pms[i].id);
      assert Mapped(m, pms[i].id);
      var k :| 0 <= k < |m| && m[k].oldId == pms[i].id && m[k].newId == NewId(m, pms[i].id);
      assert m[k] in m;
      var j :| 0 <= j < |pms| && pms[j].id == m[k].oldId && BookingId(booking, pms[j].key) == Some(m[k].newId);
      assert i == j;
    }
  }

  /** The fetched mapping, when it has no orphans, is stored, counted as total, and keeps ids distinct. */
  lemma FetchedIsTotal(pms: seq<Hotel>, booking: seq<Hotel>)
    requires DistinctIds(pms) && DistinctKeys(pms) && DistinctIds(booking) && OrphansOf(pms, booking) == []
    ensures var m := MappingOf(pms, booking);
            && DistinctOld(m) && DistinctNew(m) && |pms| == |m|
            && (forall i :: 0 <= i < |pms| ==> Mapped(m, pms[i].id))
            && DistinctIds(RenamedHotels(m, pms))
  {
    var m := MappingOf(pms, booking);
    MappingEntries(pms, booking);
    MappingIsOneToOne(pms, booking);
    forall k | 0 <= k < |m| ensures HasId(pms, m[k].oldId) { assert m[k] in m; }
    CountCheckSuffices(pms, m);
    RenamingKeepsIdsDistinct(pms, m);
  }

  /** Hotels that stay apart under the mapping keep the child tables' keys unique. */
  lemma ChildKeysStayUnique(hotels: seq<Hotel>, table: Table, m: seq<Pair>)
    requires Referenced(hotels, table.rows) && Unique(table.rows, SameKey(table.keys)) && DistinctIds(RenamedHotels(m, hotels))
    ensures Unique(RenamedRows(m, table.rows), SameKey(table.keys))
  {
    var rows, after := table.rows, RenamedRows(m, table.rows);
    forall a, b | 0 <= a < |rows| && 0 <= b < |rows| && a != b ensures !SameKey(table.keys)(after[a], after[b]) {
      ClashedBefore(hotels, m, table.keys, rows[a], rows[b]);
      assert !SameKey(table.keys)(rows[a], rows[b]);
    }
  }

  lemma ClashedBefore(hotels: seq<Hotel>, m: seq<Pair>, keys: seq<nat -> nat>, a: Child, b: Child)
    requires (a.hotel.Some? ==> HasId(hotels, a.hotel.value)) && (b.hotel.Some? ==> HasId(hotels, b.hotel.value))
    requires DistinctIds(RenamedHotels(m, hotels))
    ensures KeysClash(keys, RenamedChild(m, a), RenamedChild(m, b)) ==> KeysClash(keys, a, b)
  {
    if KeysClash(keys, RenamedChild(m, a), RenamedChild(m, b)) { SameHotelBefore(hotels, m, a.hotel.value, b.hotel.value); }
  }

  lemma SameHotelBefore(hotels: seq<Hotel>, m: seq<Pair>, x: Id, y: Id)
    requires HasId(hotels, x) && HasId(hotels, y) && DistinctIds(RenamedHotels(m, hotels)) && NewId(m, x) == NewId(m, y)
    ensures x == y
  {
    var i :| 0 <= i < |hotels| && hotels[i].id == x;
    var j :| 0 <= j < |hotels| && hotels[j].id == y;
    assert RenamedHotels(m, hotels)[i].id == RenamedHotels(m, hotels)[j].id;
  }

  /** Nothing is in the way of any UPDATE, in the orders of the plan. */
  ghost predicate AllClear(m: seq<Pair>, hotels: seq<Hotel>, tables: seq<Table>, plan: Plan)
    requires PlanFor(plan, hotels, tables)
  {
    && (forall t :: 0 <= t < |tables| ==> NoneInTheWay(tables[t].rows, ChildRename(m), SameKey(tables[t].keys), plan.children[t]))
    && NoneInTheWay(hotels, HotelRename(m), SameId(), plan.parent)
  }

  /** With the fetched mapping and no orphans, the migration commits exactly when no row of any table, hotels or
  children, has to take a key that a row visited later still has; checked at the end of each statement it always
  commits. */
  lemma CommitsExactlyWhen(pms: seq<Hotel>, tables: seq<Table>, booking: seq<Hotel>, check: KeyCheck, plan: Plan)
    requires Schema(pms, tables) && DistinctKeys(pms) && DistinctIds(booking) && OrphansOf(pms, booking) == []
    requires PlanFor(plan, pms, tables)
    ensures var m := MappingOf(pms, booking);
            && DistinctOld(m) && DistinctNew(m) && |pms| == |m|
            && (AllGo(m, pms, tables, check, plan) <==> check == AtEnd || AllClear(m, pms, tables, plan))
  {
    var m := MappingOf(pms, booking);
    FetchedIsTotal(pms, booking);
    UniqueIds(RenamedHotels(m, pms));
    forall t | 0 <= t < |tables| ensures Unique(RenamedRows(m, tables[t].rows), SameKey(tables[t].keys)) {
      ChildKeysStayUnique(pms, tables[t], m);
    }
  }

  /** No hotel's new id is another hotel's current id. */
  ghost predicate IdsDoNotOverlap(m: seq<Pair>, hotels: seq<Hotel>) {
    forall i, j :: 0 <= i < |hotels| && 0 <= j < |hotels| && i != j ==> NewId(m, hotels[i].id) != hotels[j].id
  }

  lemma OverlapIsOfIds(m: seq<Pair>, hotels: seq<Hotel>)
    ensures NoOverlap(hotels, HotelRename(m), SameId()) <==> IdsDoNotOverlap(m, hotels)
  {
    if NoOverlap(hotels, HotelRename(m), SameId()) {
      forall i, j | 0 <= i < |hotels| && 0 <= j < |hotels| && i != j ensures NewId(m, hotels[i].id) != hotels[j].id {
        assert !SameId()(HotelRename(m)(hotels[i]), hotels[j]);
      }
    }
  }

  lemma ClashedWithOwn(hotels: seq<Hotel>, m: seq<Pair>, keys: seq<nat -> nat>, a: Child, b: Child)
    requires (a.hotel.Some? ==> HasId(hotels, a.hotel.value)) && (b.hotel.Some? ==> HasId(hotels, b.hotel.value))
    requires IdsDoNotOverlap(m, hotels)
    ensures KeysClash(keys, RenamedChild(m, a), b) ==> KeysClash(keys, a, b)
  {
    if KeysClash(keys, RenamedChild(m, a), b) {
      var i :| 0 <= i < |hotels| && hotels[i].id == a.hotel.value;
      var j :| 0 <= j < |hotels| && hotels[j].id == b.hotel.value;
      assert i == j;
    }
  }

  /** Hotels that do not overlap keep their children from overlapping. */
  lemma ChildrenDoNotOverlap(m: seq<Pair>, hotels: seq<Hotel>, table: Table)
    requires Referenced(hotels, table.rows) && Unique(table.rows, SameKey(table.keys)) && IdsDoNotOverlap(m, hotels)
    ensures NoOverlap(table.rows, ChildRename(m), SameKey(table.keys))
  {
    var rows := table.rows;
    forall a, b | 0 <= a < |rows| && 0 <= b < |rows| && a != b ensures !SameKey(table.keys)(ChildRename(m)(rows[a]), rows[b]) {
      ClashedWithOwn(hotels, m, table.keys, rows[a], rows[b]);
      assert !SameKey(table.keys)(rows[a], rows[b]);
    }
  }

  /** The plan that visits every table upwards, and hotels in a given order. */
  function PlanWith(parent: seq<nat>, tables: seq<Table>): Plan {
    Plan(parent, seq(|tables|, t requires 0 <= t < |tables| => Upwards(|tables[t].rows|)))
  }

  lemma PlanWithVisits(parent: seq<nat>, hotels: seq<Hotel>, tables: seq<Table>)
    requires Visits(parent, |hotels|)
    ensures PlanFor(PlanWith(parent, tables), hotels, tables)
  {
    forall t | 0 <= t < |tables| ensures Visits(PlanWith(parent, tables).children[t], |tables[t].rows|) { BothVisit(|tables[t].rows|); }
  }

  /** Whatever orders the database picks: with keys checked at every row, the migration commits in all of them exactly
  when no hotel's new id is another hotel's current id. */
  lemma CommitsInEveryOrder(pms: seq<Hotel>, tables: seq<Table>, booking: seq<Hotel>)
    requires Schema(pms, tables) && DistinctKeys(pms) && DistinctIds(booking) && OrphansOf(pms, booking) == []
    ensures var m := MappingOf(pms, booking);
            (forall plan :: PlanFor(plan, pms, tables) ==> AllGo(m, pms, tables, RowByRow, plan)) <==> IdsDoNotOverlap(m, pms)
  {
    var m := MappingOf(pms, booking);
    FetchedIsTotal(pms, booking);
    UniqueIds(RenamedHotels(m, pms));
    OverlapIsOfIds(m, pms);
    if IdsDoNotOverlap(m, pms) {
      forall plan | PlanFor(plan, pms, tables) ensures AllGo(m, pms, tables, RowByRow, plan) { AllGoAnyOrder(m, pms, tables, plan); }
    } else {
      var i, j :| 0 <= i < |pms| && 0 <= j < |pms| && i != j && NewId(m, pms[i].id) == pms[j].id;
      Refused(pms, HotelRename(m), SameId(), i, j);
      var plan := PlanWith(Before(|pms|, i, j), tables);
      PlanWithVisits(Before(|pms|, i, j), pms, tables);
      assert !ParentGoes(m, pms, RowByRow, plan.parent);
    }
  }

  lemma AllGoAnyOrder(m: seq<Pair>, hotels: seq<Hotel>, tables: seq<Table>, plan: Plan)
    requires Schema(hotels, tables) && IdsDoNotOverlap(m, hotels) && DistinctIds(RenamedHotels(m, hotels)) && PlanFor(plan, hotels, tables)
    ensures AllGo(m, hotels, tables, RowByRow, plan)
  {
    UniqueIds(RenamedHotels(m, hotels));
    OverlapIsOfIds(m, hotels);
    GoesInEveryOrder(hotels, HotelRename(m), SameId());
    forall t | 0 <= t < |tables| ensures TableGoes(m, tables[t], RowByRow, plan.children[t]) {
      ChildrenDoNotOverlap(m, hotels, tables[t]);
      ChildKeysStayUnique(hotels, tables[t], m);
      GoesInEveryOrder(tables[t].rows, ChildRename(m), SameKey(tables[t].keys));
    }
  }

  // ----- two refusals -----

  lemma TwoMapped(a: Key, b: Key, x: Id, y: Id, x': Id, y': Id)
    requires a != b
    ensures MappingOf([Hotel(x, a, ""), Hotel(y, b, "")], [Hotel(x', a, ""), Hotel(y', b, "")]) == [Pair(x, x'), Pair(y, y')]
  {
    var pms, booking := [Hotel(x, a, ""), Hotel(y, b, "")], [Hotel(x', a, ""), Hotel(y', b, "")];
    assert pms[..1] == [pms[0]] && pms[..1][..0] == [];
    assert MappingOf(pms[..1], booking) == [] + [Pair(x, x')];
    assert booking[1..] == [booking[1]];
    assert BookingId(booking, b) == Some(y');
  }

  lemma TwoRenamed(x: Id, y: Id, x': Id, y': Id)
    requires x != y
    ensures NewId([Pair(x, x'), Pair(y, y')], x) == x' && NewId([Pair(x, x'), Pair(y, y')], y) == y'
  {
    assert [Pair(x, x'), Pair(y, y')][1..] == [Pair(y, y')];
  }

  lemma TwoVisits(order: seq<nat>)
    requires Visits(order, 2)
    ensures order == [0, 1] || order == [1, 0]
  {
    assert order == [order[0], order[1]];
  }

  /** Two hotels that swap ids: refused row by row in either order, although the final ids would be distinct. */
  lemma SwappedIdsAreRefused(a: Key, b: Key, x: Id, y: Id, order: seq<nat>)
    requires a != b && x != y && Visits(order, 2)
    ensures var pms, booking := [Hotel(x, a, ""), Hotel(y, b, "")], [Hotel(y, a, ""), Hotel(x, b, "")];
            var m := MappingOf(pms, booking);
            ParentGoes(m, pms, AtEnd, order) && !ParentGoes(m, pms, RowByRow, order)
  {
    var pms := [Hotel(x, a, ""), Hotel(y, b, "")];
    TwoMapped(a, b, x, y, y, x);
    TwoRenamed(x, y, y, x);
    TwoVisits(order);
    var m := [Pair(x, y), Pair(y, x)];
    assert SameId()(HotelRename(m)(pms[order[0]]), pms[order[1]]);
    UniqueIds(RenamedHotels(m, pms));
  }

  const ANYTHING: nat -> nat := (data: nat) => 0

  /** A child table with a unique hotel_id can refuse where the hotels alone would not: the first hotel moves away in
  time for the second, but the second's payment settings are visited before the first's. */
  lemma ChildTableRefuses(a: Key, b: Key, x: Id, y: Id, z: Id)
    requires a != b && x != y && y != z && x != z
    ensures var pms, booking := [Hotel(y, a, ""), Hotel(x, b, "")], [Hotel(z, a, ""), Hotel(y, b, "")];
            var settings := Table([ANYTHING], [Child(Some(x), 0), Child(Some(y), 0)]);
            var m := MappingOf(pms, booking);
            && Schema(pms, [settings]) && Visits(Upwards(2), 2)
            && ParentGoes(m, pms, RowByRow, Upwards(2)) && !TableGoes(m, settings, RowByRow, Upwards(2))
  {
    var pms := [Hotel(y, a, ""), Hotel(x, b, "")];
    var settings := Table([ANYTHING], [Child(Some(x), 0), Child(Some(y), 0)]);
    TwoMapped(a, b, y, x, z, y);
    TwoRenamed(y, x, z, y);
    BothVisit(2);
    var m := [Pair(y, z), Pair(x, y)];
    UniqueIds(RenamedHotels(m, pms));
    assert HasId(pms, x) by { assert pms[1].id == x; }
    assert HasId(pms, y) by { assert pms[0].id == y; }
    assert settings.keys[0](0) == settings.keys[0](0);
    assert KeysClash(settings.keys, RenamedChild(m, settings.rows[0]), settings.rows[1]);
    assert SameKey(settings.keys)(ChildRename(m)(settings.rows[Upwards(2)[0]]), settings.rows[Upwards(2)[1]]);
  }
}
