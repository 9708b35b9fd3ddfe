/** Booking rows for PMS hotels that have none (apps/pms-api/scripts/unify_hotel_ids.py, `reconcile_orphans`). */
module OrphanStubs {

  type Id = nat
  datatype Key = Key(user: string, slug: string)
  datatype Hotel = Hotel(id: Id, key: Key, name: string)

  ghost predicate DistinctIds(hotels: seq<Hotel>) {
    forall i, j :: 0 <= i < j < |hotels| ==> hotels[i].id != hotels[j].id
  }

  ghost predicate DistinctKeys(hotels: seq<Hotel>) {
    forall i, j :: 0 <= i < j < |hotels| ==> hotels[i].key != hotels[j].key
  }

  predicate HasId(hotels: seq<Hotel>, id: Id) { exists i :: 0 <= i < |hotels| && hotels[i].id == id }

  predicate HasKey(hotels: seq<Hotel>, key: Key) { exists i :: 0 <= i < |hotels| && hotels[i].key == key }

  /** The booking row made for an orphan. */
  predicate IsStub(h: Hotel, o: Hotel) {
    h.id == o.id && h.key == o.key && h.name == (if o.name == "" then "Untitled Property" else o.name)
  }

  function Stub(o: Hotel): Hotel { o.(name := if o.name == "" then "Untitled Property" else o.name) }

  /** The booking rows once every orphan whose id was free has a row. */
  function Reconciled(booking: seq<Hotel>, orphans: seq<Hotel>): seq<Hotel> {
    if orphans == [] then booking
    else
      var before := Reconciled(booking, orphans[..|orphans| - 1]);
      var o := orphans[|orphans| - 1];
      if HasId(before, o.id) then before else before + [Stub(o)]
  }

  lemma IdsOfMore(hotels: seq<Hotel>, h: Hotel, id: Id)
    ensures HasId(hotels + [h], id) <==> HasId(hotels, id) || h.id == id
  {
    var all := hotels + [h];
    if i :| 0 <= i < |hotels| && hotels[i].id == id { assert all[i].id == id; }
    if h.id == id { assert all[|hotels|].id == id; }
  }

  /** The ids in use afterwards are those of the booking rows and of the orphans: every orphan has a row with its id. */
  lemma {:induction false} ReconciledIds(booking: seq<Hotel>, orphans: seq<Hotel>, id: Id)
    ensures HasId(Reconciled(booking, orphans), id) <==> HasId(booking, id) || HasId(orphans, id)
  {
    if orphans != [] {
      var n := |orphans| - 1;
      var before := Reconciled(booking, orphans[..n]);
      ReconciledIds(booking, orphans[..n], id);
      IdsOfMore(orphans[..n], orphans[n], id);
      IdsOfMore(before, Stub(orphans[n]), id);
      assert orphans == orphans[..n] + [orphans[n]];
    }
  }

  lemma DistinctMore(hotels: seq<Hotel>, h: Hotel)
    requires DistinctIds(hotels) && !HasId(hotels, h.id)
    ensures DistinctIds(hotels + [h])
  {
  }

  lemma {:induction false} ReconciledDistinct(booking: seq<Hotel>, orphans: seq<Hotel>)
    requires DistinctIds(booking)
    ensures DistinctIds(Reconciled(booking, orphans)) && booking <= Reconciled(booking, orphans)
  {
    if orphans != [] {
      var n := |orphans| - 1;
      var before := Reconciled(booking, orphans[..n]);
      ReconciledDistinct(booking, orphans[..n]);
      if !HasId(before, orphans[n].id) { DistinctMore(before, Stub(orphans[n])); }
    }
  }

  /** The row is the stub of some orphan whose id was free. */
  ghost predicate NewRow(booking: seq<Hotel>, orphans: seq<Hotel>, h: Hotel) {
    exists k :: 0 <= k < |orphans| && IsStub(h, orphans[k]) && !HasId(booking, orphans[k].id)
  }

  lemma NewRowAlso(booking: seq<Hotel>, init: seq<Hotel>, o: Hotel, h: Hotel)
    requires NewRow(booking, init, h)
    ensures NewRow(booking, init + [o], h)
  {
    var k :| 0 <= k < |init| && IsStub(h, init[k]) && !HasId(booking, init[k].id);
    assert (init + [o])[k] == init[k];
  }

  lemma {:induction false} AddedAreStubs(booking: seq<Hotel>, orphans: seq<Hotel>, i: nat)
    requires DistinctIds(booking) && |booking| <= i < |Reconciled(booking, orphans)|
    ensures NewRow(booking, orphans, Reconciled(booking, orphans)[i])
  {
    var n := |orphans| - 1;
    var before, o := Reconciled(booking, orphans[..n]), orphans[n];
    assert orphans == orphans[..n] + [o];
    if i < |before| {
      AddedAreStubs(booking, orphans[..n], i);
      NewRowAlso(booking, orphans[..n], o, before[i]);
    } else {
      ReconciledIds(booking, orphans[..n], o.id);
      assert IsStub(Stub(o), orphans[n]);
    }
  }

  /** From some place on there is the orphan's stub. */
  ghost predicate HasStub(rows: seq<Hotel>, from: nat, o: Hotel) { exists i :: from <= i < |rows| && IsStub(rows[i], o) }

  /** Orphans of different ids each get a row of their own, unless their id was taken. */
  lemma OwnStub(booking: seq<Hotel>, orphans: seq<Hotel>, k: nat)
    requires DistinctIds(booking) && DistinctIds(orphans) && k < |orphans| && !HasId(booking, orphans[k].id)
    ensures HasStub(Reconciled(booking, orphans), |booking|, orphans[k])
  {
    var after := Reconciled(booking, orphans);
    ReconciledDistinct(booking, orphans);
    ReconciledIds(booking, orphans, orphans[k].id);
    var i :| 0 <= i < |after| && after[i].id == orphans[k].id;
    assert forall j :: 0 <= j < |booking| ==> booking[j] == after[j];
    assert i >= |booking|;
    AddedAreStubs(booking, orphans, i);
    var l :| 0 <= l < |orphans| && IsStub(after[i], orphans[l]) && !HasId(booking, orphans[l].id);
    assert l == k;
  }
}
