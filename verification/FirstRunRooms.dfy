/** The first run's rooms (apps/api/src/hotelFirstRunSetupRoomTestSupport.ts): room types created in order,
their rooms made and named "Room 1", "Room 2" and so on across the types. A run may stop after any command and
start again with the same input; nobody else writes. */
module FirstRunRooms {

  /** A room's name: none yet, or "Room n". */
  datatype Label = Unnamed | Room(number: nat)

  /** A room type as stored: its active rooms by id, and the revision every command must quote. */
  datatype RoomType = RoomType(units: map<nat, Label>, revision: nat)

  const MAX_UNITS := 500

  datatype Reply = Applied | Rejected | Stopped
  datatype Outcome = Done(wrote: bool) | Invalid | Refused | Interrupted

  // ----- numbering -----

  ghost function Named(units: map<nat, Label>): set<nat> { set u | u in units && units[u].Room? }

  predicate HasNumber(units: map<nat, Label>, n: nat) { exists u :: u in units && units[u] == Room(n) }

  /** The named rooms carry exactly the numbers offset+1 .. offset+(named rooms), each once. */
  ghost predicate Block(units: map<nat, Label>, offset: nat) {
    && (forall u :: u in units && units[u].Room? ==> offset < units[u].number <= offset + |Named(units)|)
    && (forall u, v :: u in units && v in units && u != v && units[u].Room? ==> units[u] != units[v])
    && (forall n: nat :: offset < n <= offset + |Named(units)| ==> HasNumber(units, n))
  }

  ghost predicate Complete(t: RoomType, count: nat) {
    |t.units| == count && count > 0 && forall u :: u in t.units ==> t.units[u].Room?
  }

  function Offset(counts: seq<nat>, i: nat): nat
    requires i <= |counts|
  {
    if i == 0 then 0 else Offset(counts, i - 1) + counts[i - 1]
  }

  /** Type i exists, has all its rooms or none, and its numbers follow on from the types before it. */
  ghost predicate Shaped(types: map<nat, RoomType>, counts: seq<nat>, i: nat) {
    && i < |counts| && i in types
    && (|types[i].units| == 0 || |types[i].units| == counts[i])
    && Block(types[i].units, Offset(counts, i))
  }

  ghost predicate Finished(types: map<nat, RoomType>, counts: seq<nat>, i: nat) {
    i < |counts| && i in types && Complete(types[i], counts[i])
  }

  ghost predicate FirstTypes(types: map<nat, RoomType>) { forall i: nat :: i in types <==> i < |types| }

  /** What a stopped run can leave: the types made so far, in order, every one but the last finished. */
  ghost predicate Orderly(types: map<nat, RoomType>, counts: seq<nat>) {
    && |types| <= |counts| && FirstTypes(types)
    && (forall i: nat :: i < |types| ==> Shaped(types, counts, i))
    && (forall i: nat :: i < |types| - 1 ==> Finished(types, counts, i))
  }

  /** How many rooms carry a name in all. */
  ghost function NamedInAll(types: map<nat, RoomType>, counts: seq<nat>): nat
    requires Orderly(types, counts)
  {
    if |types| == 0 then 0 else Offset(counts, |types| - 1) + |Named(types[|types| - 1].units)|
  }

  lemma {:induction false} OffsetGrows(counts: seq<nat>, i: nat, j: nat)
    requires i < j <= |counts|
    ensures Offset(counts, i) + counts[i] <= Offset(counts, j)
    decreases j
  {
    if i < j - 1 { OffsetGrows(counts, i, j - 1); }
  }

  lemma {:induction false} CompleteIsNamed(t: RoomType, count: nat)
    requires Complete(t, count)
    ensures |Named(t.units)| == count
  {
    assert Named(t.units) == t.units.Keys;
  }

  /** The type whose block a number falls in. */
  lemma {:induction false} TypeOfNumber(counts: seq<nat>, n: nat, c: nat) returns (i: nat)
    requires c < |counts| && 0 < n
    ensures i <= c && Offset(counts, i) < n
    ensures i < c ==> n <= Offset(counts, i + 1)
    decreases c
  {
    if c == 0 || Offset(counts, c) < n { return c; }
    i := TypeOfNumber(counts, n, c - 1);
    if i == c - 1 { assert n <= Offset(counts, c); }
  }

  /** Room u of type i carries the number n. */
  predicate Carries(types: map<nat, RoomType>, i: nat, u: nat, n: nat) {
    i in types && u in types[i].units && types[i].units[u] == Room(n)
  }

  predicate Used(types: map<nat, RoomType>, n: nat) { exists i :: i in types && HasNumber(types[i].units, n) }

  /** Where the numbers of one type lie: after the earlier types' rooms, and within the type's own. */
  lemma {:induction false} NumberInBlock(types: map<nat, RoomType>, counts: seq<nat>, i: nat, u: nat, n: nat)
    requires Orderly(types, counts) && Carries(types, i, u, n)
    ensures Offset(counts, i) < n <= NamedInAll(types, counts)
    ensures i + 1 < |types| ==> n <= Offset(counts, i + 1)
  {
    var c := |types|;
    assert FirstTypes(types);
    assert Shaped(types, counts, i);
    assert n <= Offset(counts, i) + |Named(types[i].units)|;
    if i + 1 < c {
      assert Finished(types, counts, i);
      CompleteIsNamed(types[i], counts[i]);
      if i + 1 < c - 1 { OffsetGrows(counts, i + 1, c - 1); }
    }
  }

  lemma {:induction false} NumberIsUsed(types: map<nat, RoomType>, counts: seq<nat>, n: nat)
    requires Orderly(types, counts) && 1 <= n <= NamedInAll(types, counts)
    ensures Used(types, n)
  {
    var c := |types|;
    var i := TypeOfNumber(counts, n, c - 1);
    assert Shaped(types, counts, i);
    if i < c - 1 {
      assert Finished(types, counts, i);
      CompleteIsNamed(types[i], counts[i]);
    }
    assert HasNumber(types[i].units, n);
  }

  lemma {:induction false} NumberIsOnce(types: map<nat, RoomType>, counts: seq<nat>, i: nat, u: nat, j: nat, v: nat, n: nat)
    requires Orderly(types, counts) && Carries(types, i, u, n) && Carries(types, j, v, n) && i <= j
    ensures i == j && u == v
  {
    NumberInBlock(types, counts, i, u, n);
    NumberInBlock(types, counts, j, v, n);
    assert FirstTypes(types);
    if i + 1 < j { OffsetGrows(counts, i + 1, j); }
    assert Shaped(types, counts, i);
  }

  /** Across all room types the named rooms carry exactly the numbers 1 .. k, each once. */
  lemma {:induction false} NumbersRunOn(types: map<nat, RoomType>, counts: seq<nat>)
    requires Orderly(types, counts)
    ensures forall n: nat :: Used(types, n) <==> 1 <= n <= NamedInAll(types, counts)
    ensures forall i, u, j, v, n :: Carries(types, i, u, n) && Carries(types, j, v, n) ==> i == j && u == v
  {
    forall n: nat ensures Used(types, n) <==> 1 <= n <= NamedInAll(types, counts) {
      if Used(types, n) {
        var i :| i in types && HasNumber(types[i].units, n);
        var u :| u in types[i].units && types[i].units[u] == Room(n);
        NumberInBlock(types, counts, i, u, n);
      }
      if 1 <= n <= NamedInAll(types, counts) { NumberIsUsed(types, counts, n); }
    }
    forall i, u, j, v, n | Carries(types, i, u, n) && Carries(types, j, v, n) ensures i == j && u == v {
      if i <= j { NumberIsOnce(types, counts, i, u, j, v, n); } else { NumberIsOnce(types, counts, j, v, i, u, n); }
    }
  }

  /** Naming one more room with the next number keeps the block. */
  lemma {:induction false} BlockGrows(units: map<nat, Label>, offset: nat, u: nat)
    requires Block(units, offset) && u in units && units[u].Unnamed?
    ensures var n := offset + |Named(units)| + 1;
            && !HasNumber(units, n)
            && Block(units[u := Room(n)], offset)
            && |Named(units[u := Room(n)])| == |Named(units)| + 1
  {
    var n := offset + |Named(units)| + 1;
    var after := units[u := Room(n)];
    assert Named(after) == Named(units) + {u};
    forall m: nat | offset < m <= n ensures HasNumber(after, m) {
      if m == n {
        assert after[u] == Room(n);
      } else {
        assert HasNumber(units, m);
        var v :| v in units && units[v] == Room(m);
        assert after[v] == Room(m);
      }
    }
  }

  // ----- the run -----

  ghost predicate DoneBefore(types: map<nat, RoomType>, counts: seq<nat>, i: nat) {
    forall j: nat :: j < i ==> Finished(types, counts, j)
  }

  lemma {:induction false} SizeWith(types: map<nat, RoomType>, i: nat, t: RoomType)
    requires FirstTypes(types) && (i == |types| || i == |types| - 1)
    ensures |types[i := t]| == i + 1 && FirstTypes(types[i := t])
  {
    var after := types[i := t];
    assert i in types <==> i < |types|;
    if i == |types| {
      assert after.Keys == types.Keys + {i};
      assert |after.Keys| == |types.Keys| + 1;
    } else {
      assert after.Keys == types.Keys;
      assert |after.Keys| == |types.Keys|;
    }
    forall j: nat ensures j in after <==> j <= i { assert j in types <==> j < |types|; }
  }

  /** Replacing the last type, or adding one after it, by a type of the right shape. */
  lemma {:induction false} OrderlyWith(types: map<nat, RoomType>, counts: seq<nat>, i: nat, t: RoomType)
    requires Orderly(types, counts) && i < |counts| && DoneBefore(types, counts, i)
    requires i == |types| || i == |types| - 1
    requires Block(t.units, Offset(counts, i)) && (|t.units| == 0 || |t.units| == counts[i])
    ensures Orderly(types[i := t], counts) && DoneBefore(types[i := t], counts, i)
    ensures |types[i := t]| == i + 1
  {
    var after := types[i := t];
    SizeWith(types, i, t);
    forall j: nat | j < i ensures Finished(after, counts, j) && Shaped(after, counts, j) {
      assert Finished(types, counts, j) && Shaped(types, counts, j);
    }
    assert Shaped(after, counts, i);
  }

  lemma {:induction false} EmptyBlock(units: map<nat, Label>, offset: nat)
    requires forall u :: u in units ==> units[u].Unnamed?
    ensures Block(units, offset) && |Named(units)| == 0
  {
    assert Named(units) == {};
  }

  /** The property's rooms as stored, and how many more commands this run gets to send. */
  class Hotel {
    var types: map<nat, RoomType>
    var budget: nat
    const ownTypes: nat

    constructor (ownTypes: nat)
      ensures types == map[] && this.ownTypes == ownTypes
    {
      types, budget, this.ownTypes := map[], 0, ownTypes;
    }

    method CreateRoomType(i: nat) returns (r: Reply)
      modifies this`types, this`budget
      ensures r == if old(budget) == 0 then Stopped else if i in old(types) then Rejected else Applied
      ensures types == if r == Applied then old(types)[i := RoomType(map[], 0)] else old(types)
      ensures r == Stopped ==> budget == 0
      ensures budget == old(budget) - if r == Stopped then 0 else 1
    {
      if budget == 0 { return Stopped; }
      budget := budget - 1;
      if i in types { return Rejected; }
      types := types[i := RoomType(map[], 0)];
      r := Applied;
    }

    /** Refused unless it quotes the current revision. */
    method ReconcileUnits(i: nat, expected: nat, target: nat) returns (r: Reply)
      requires i in types
      modifies this`types, this`budget
      ensures r == if old(budget) == 0 then Stopped else if expected != old(types)[i].revision then Rejected else Applied
      ensures r != Applied ==> types == old(types)
      ensures r == Stopped ==> budget == 0
      ensures budget == old(budget) - if r == Stopped then 0 else 1
      ensures r == Applied ==>
                && i in types && types == old(types)[i := types[i]]
                && types[i].revision == expected + 1 && |types[i].units| == target
                && forall u :: u in types[i].units ==> types[i].units[u].Unnamed?
    {
      if budget == 0 { return Stopped; }
      budget := budget - 1;
      if expected != types[i].revision { return Rejected; }
      var units: map<nat, Label> := map[];
      for u := 0 to target
        invariant |units| == u && (forall v :: v in units ==> v < u && units[v].Unnamed?)
      {
        units := units[u := Unnamed];
      }
      types := types[i := RoomType(units, expected + 1)];
      r := Applied;
    }

    /** Refused unless it quotes the current revision and the name is free in the hotel. */
    method SetLabel(i: nat, u: nat, expected: nat, n: nat) returns (r: Reply)
      requires i in types && u in types[i].units
      modifies this`types, this`budget
      ensures r == if old(budget) == 0 then Stopped
                   else if expected != old(types)[i].revision || Used(old(types), n) then Rejected else Applied
      ensures types == if r != Applied then old(types)
                       else old(types)[i := RoomType(old(types)[i].units[u := Room(n)], expected + 1)]
      ensures r == Stopped ==> budget == 0
      ensures budget == old(budget) - if r == Stopped then 0 else 1
    {
      if budget == 0 { return Stopped; }
      budget := budget - 1;
      if expected != types[i].revision || Used(types, n) { return Rejected; }
      types := types[i := RoomType(types[i].units[u := Room(n)], expected + 1)];
      r := Applied;
    }

    /** The active rooms of a type, in whatever order they are listed. */
    method ListUnits(i: nat) returns (ids: seq<nat>)
      requires i in types
      ensures forall u :: u in ids <==> u in types[i].units
      ensures forall a, b :: 0 <= a < b < |ids| ==> ids[a] != ids[b]
    {
      ids := [];
      var todo := types[i].units.Keys;
      while todo != {}
        invariant todo <= types[i].units.Keys
        invariant forall u :: u in ids <==> u in types[i].units && u !in todo
        invariant forall a, b :: 0 <= a < b < |ids| ==> ids[a] != ids[b]
        decreases todo
      {
        var u :| u in todo;
        todo := todo - {u};
        ids := ids + [u];
      }
    }

    /** The numbers in use in this type, and those not yet named, in listing order: what the code reads. */
    method ReadUnits(i: nat, nextNumber: nat, ghost counts: seq<nat>) returns (unnamed: seq<nat>, first: nat)
      requires i in types && i < |counts| && Block(types[i].units, Offset(counts, i)) && nextNumber == Offset(counts, i) + 1
      ensures first == Offset(counts, i) + |Named(types[i].units)| + 1
      ensures forall u :: u in unnamed <==> u in types[i].units && types[i].units[u].Unnamed?
      ensures forall a, b :: 0 <= a < b < |unnamed| ==> unnamed[a] != unnamed[b]
      ensures unnamed == [] <==> forall u :: u in types[i].units ==> types[i].units[u].Room?
    {
      var units := types[i].units;
      var ids := ListUnits(i);
      unnamed, first := [], nextNumber;
      for k := 0 to |ids|
        invariant forall u :: u in unnamed <==> u in ids[..k] && units[u].Unnamed?
        invariant forall a, b :: 0 <= a < b < |unnamed| ==> unnamed[a] != unnamed[b]
        invariant nextNumber <= first <= Offset(counts, i) + |Named(units)| + 1
        invariant forall j :: 0 <= j < k && units[ids[j]].Room? ==> units[ids[j]].number < first
      {
        var u := ids[k];
        assert u in ids;
        assert u !in ids[..k];
        if units[u].Room? {
          if units[u].number + 1 > first { first := units[u].number + 1; }
        } else {
          unnamed := unnamed + [u];
        }
      }
      assert ids[..|ids|] == ids;
      if |Named(units)| > 0 {
        var top := Offset(counts, i) + |Named(units)|;
        assert HasNumber(units, top);
        var u :| u in units && units[u] == Room(top);
        assert u in ids;
      }
      assert unnamed != [] ==> unnamed[0] in unnamed;
    }

    /** The naming loop: one command for each unnamed room, numbers running up from `first`. */
    method NameRooms(i: nat, unnamed: seq<nat>, first: nat, ghost counts: seq<nat>) returns (r: Reply)
      requires Orderly(types, counts) && i < |types| && DoneBefore(types, counts, i)
      requires |types[i].units| == counts[i] > 0
      requires first == Offset(counts, i) + |Named(types[i].units)| + 1
      requires forall u :: u in unnamed <==> u in types[i].units && types[i].units[u].Unnamed?
      requires forall a, b :: 0 <= a < b < |unnamed| ==> unnamed[a] != unnamed[b]
      requires i == |types| - 1 || unnamed == []
      modifies this`types, this`budget
      ensures Orderly(types, counts) && DoneBefore(types, counts, i) && |types| == |old(types)|
      ensures r == Applied || (r == Stopped && budget == 0)
      ensures r == Applied ==> Finished(types, counts, i) && first + |unnamed| == Offset(counts, i + 1) + 1
      ensures unnamed == [] ==> r == Applied && types == old(types) && budget == old(budget)
      ensures budget <= old(budget) && (r == Applied ==> budget == old(budget) - |unnamed|)
    {
      var revision := types[i].revision;
      for k := 0 to |unnamed|
        invariant Orderly(types, counts) && DoneBefore(types, counts, i) && |types| == |old(types)|
        invariant types[i].revision == revision && |types[i].units| == counts[i]
        invariant |Named(types[i].units)| == |Named(old(types)[i].units)| + k
        invariant forall u :: u in unnamed[k..] <==> u in types[i].units && types[i].units[u].Unnamed?
        invariant k == 0 ==> types == old(types)
        invariant budget == old(budget) - k
      {
        var u := unnamed[k];
        assert unnamed[k..] == [u] + unnamed[k + 1..];
        assert u in unnamed[k..];
        NextNumberIsFree(types, counts, i, u, revision + 1);
        r := SetLabel(i, u, revision, first + k);
        if r != Applied { return; }
        revision := revision + 1;
      }
      r := Applied;
      AllNamed(types, counts, i);
    }

    /** The room type, made if it is not there yet. */
    method MakeType(i: nat, existing: bool, ghost counts: seq<nat>) returns (r: Reply)
      requires Orderly(types, counts) && i < |counts| && DoneBefore(types, counts, i)
      requires existing <==> i in types
      modifies this`types, this`budget
      ensures Orderly(types, counts) && DoneBefore(types, counts, i)
      ensures r == Applied || (r == Stopped && budget == 0 && types == old(types))
      ensures r == Applied ==> Shaped(types, counts, i) && i < |types| && (!existing ==> i == |types| - 1 && |types[i].units| == 0)
      ensures r == Applied ==> forall j :: j in types <==> j in old(types) || j == i
      ensures existing ==> r == Applied && types == old(types)
      ensures budget == old(budget) - if !existing && r == Applied then 1 else 0
    {
      TypesSoFar(types, counts, i);
      if existing { return Applied; }
      EmptyBlock(map[], Offset(counts, i));
      OrderlyWith(types, counts, i, RoomType(map[], 0));
      r := CreateRoomType(i);
    }

    /** Its rooms, made if it has none yet. */
    method MakeUnits(i: nat, count: nat, ghost counts: seq<nat>) returns (outcome: Outcome)
      requires Orderly(types, counts) && i < |types| && i < |counts| && counts[i] == count && DoneBefore(types, counts, i)
      requires |types[i].units| == 0 ==> i == |types| - 1
      modifies this`types, this`budget
      ensures Orderly(types, counts) && DoneBefore(types, counts, i) && types.Keys == old(types).Keys
      ensures outcome.Done? || (outcome == Invalid && !(1 <= count <= MAX_UNITS)) || (outcome == Interrupted && budget == 0)
      ensures outcome.Done? ==> |types[i].units| == count > 0
      ensures |old(types)[i].units| != 0 ==> outcome == Done(false) && types == old(types)
      ensures budget == old(budget) - if outcome == Done(true) then 1 else 0
    {
      assert Shaped(types, counts, i);
      if |types[i].units| != 0 { return Done(false); }
      if !(1 <= count <= MAX_UNITS) { return Invalid; }
      ghost var before := types;
      var reconciled := ReconcileUnits(i, types[i].revision, count);
      if reconciled != Applied { return Interrupted; }
      EmptyBlock(types[i].units, Offset(counts, i));
      OrderlyWith(before, counts, i, types[i]);
      outcome := Done(true);
    }

    /** `runFirstRunRoomType`: create the type, make its rooms, name the unnamed ones. */
    method RunRoomType(i: nat, count: nat, existing: bool, nextNumber: nat, ghost counts: seq<nat>)
        returns (outcome: Outcome, next: nat)
      requires Orderly(types, counts) && i < |counts| && counts[i] == count && DoneBefore(types, counts, i)
      requires existing <==> i in types
      requires nextNumber == Offset(counts, i) + 1
      modifies this`types, this`budget
      ensures Orderly(types, counts) && DoneBefore(types, counts, i)
      ensures outcome != Refused && (outcome == Interrupted ==> budget == 0)
      ensures outcome == Invalid ==> !(1 <= count <= MAX_UNITS)
      ensures outcome.Done? ==> DoneBefore(types, counts, i + 1) && next == Offset(counts, i + 1) + 1
      ensures outcome.Done? ==> forall j :: j in types <==> j in old(types) || j == i
      ensures Finished(old(types), counts, i) ==> outcome == Done(false) && types == old(types) && budget == old(budget)
      ensures budget <= old(budget) && (outcome.Done? ==> (outcome.wrote <==> budget < old(budget)))
    {
      outcome, next := Interrupted, nextNumber;
      TypesSoFar(types, counts, i);
      var made := MakeType(i, existing, counts);
      if made != Applied { return; }
      TypesSoFar(types, counts, i);
      var filled := MakeUnits(i, count, counts);
      if !filled.Done? { return filled, next; }
      assert Shaped(types, counts, i);
      var unnamed, first := ReadUnits(i, nextNumber, counts);
      assert i < |types| - 1 ==> Finished(types, counts, i);
      var named := NameRooms(i, unnamed, first, counts);
      if named != Applied { return; }
      outcome, next := Done(!existing || filled.wrote || unnamed != []), first + |unnamed|;
    }

    /** `runFirstRunRooms`, allowed `commands` commands before it is stopped. However it ends, the types are
        orderly; when it is done every room of every type is named; when they all were already, or the owner
        has room types of their own and none of the first run's, nothing is sent at all. */
    method RunRooms(counts: seq<nat>, commands: nat) returns (outcome: Outcome)
      requires Orderly(types, counts)
      modifies this`types, this`budget
      ensures Orderly(types, counts)
      ensures outcome != Refused && (outcome == Interrupted ==> budget == 0)
      ensures outcome == Invalid ==> exists i :: 0 <= i < |counts| && !(1 <= counts[i] <= MAX_UNITS)
      ensures outcome.Done? && !(old(types) == map[] && ownTypes > 0) ==> DoneBefore(types, counts, |counts|)
      ensures DoneBefore(old(types), counts, |counts|) || (old(types) == map[] && ownTypes > 0) ==>
                outcome == Done(false) && types == old(types) && budget == commands
      ensures budget <= commands && (outcome.Done? ==> (outcome.wrote <==> budget < commands))
    {
      budget := commands;
      var existing := seq(|counts|, i requires 0 <= i < |counts| reads this => i in types);
      FirstIsFirst(types, counts);
      assert forall i: nat :: i < |counts| ==> (i in types <==> existing[i]);
      if (forall i :: 0 <= i < |existing| ==> !existing[i]) && ownTypes > 0 { return Done(false); }
      var wrote, nextNumber := false, 1;
      for i := 0 to |counts|
        invariant Orderly(types, counts) && DoneBefore(types, counts, i) && nextNumber == Offset(counts, i) + 1
        invariant forall j :: i <= j < |counts| ==> (existing[j] <==> j in types)
        invariant DoneBefore(old(types), counts, |counts|) ==> !wrote && types == old(types) && budget == commands
        invariant budget <= commands && (wrote <==> budget < commands)
      {
        var one, next := RunRoomType(i, counts[i], existing[i], nextNumber, counts);
        assert DoneBefore(old(types), counts, |counts|) ==> Finished(old(types), counts, i);
        if !one.Done? { return one; }
        wrote := wrote || one.wrote;
        nextNumber := next;
      }
      outcome := Done(wrote);
    }

    /** Any number of runs on the same input, each stopped after as many commands as it is allowed: the named
        rooms always carry exactly the numbers 1 .. k, each once. */
    method RestartedRuns(counts: seq<nat>, stops: seq<nat>)
      requires types == map[]
      modifies this`types, this`budget
      ensures Orderly(types, counts)
      ensures forall n: nat :: Used(types, n) <==> 1 <= n <= NamedInAll(types, counts)
      ensures forall i, u, j, v, n :: Carries(types, i, u, n) && Carries(types, j, v, n) ==> i == j && u == v
    {
      for k := 0 to |stops|
        invariant Orderly(types, counts)
      {
        var _ := RunRooms(counts, stops[k]);
      }
      NumbersRunOn(types, counts);
    }
  }

  lemma {:induction false} FirstIsFirst(types: map<nat, RoomType>, counts: seq<nat>)
    requires Orderly(types, counts)
    ensures (forall i: nat :: i < |counts| ==> i !in types) <==> types == map[]
  {
    assert FirstTypes(types);
    if types != map[] { assert 0 in types; }
  }

  /** While the types before i are finished, the types made so far end at i or go past it finished. */
  lemma {:induction false} TypesSoFar(types: map<nat, RoomType>, counts: seq<nat>, i: nat)
    requires Orderly(types, counts) && i < |counts| && DoneBefore(types, counts, i)
    ensures i !in types ==> i == |types|
    ensures i in types && !Finished(types, counts, i) ==> i == |types| - 1
  {
    assert FirstTypes(types);
    if i > 0 { assert Finished(types, counts, i - 1); }
  }

  lemma {:induction false} AboveAllIsFree(types: map<nat, RoomType>, counts: seq<nat>, n: nat)
    requires Orderly(types, counts) && n > NamedInAll(types, counts)
    ensures !Used(types, n)
  {
    if Used(types, n) {
      var i :| i in types && HasNumber(types[i].units, n);
      var u :| u in types[i].units && types[i].units[u] == Room(n);
      NumberInBlock(types, counts, i, u, n);
    }
  }

  lemma {:induction false} SameSize(units: map<nat, Label>, u: nat, l: Label)
    requires u in units
    ensures |units[u := l]| == |units|
  {
    assert units[u := l].Keys == units.Keys;
    assert |units[u := l]| == |units[u := l].Keys| && |units| == |units.Keys|;
  }

  /** The next number of the last type is free everywhere, and giving it keeps the types orderly. */
  lemma {:induction false} NextNumberIsFree(types: map<nat, RoomType>, counts: seq<nat>, i: nat, u: nat, revision: nat)
    requires Orderly(types, counts) && i == |types| - 1 && DoneBefore(types, counts, i)
    requires i in types && u in types[i].units && types[i].units[u].Unnamed? && |types[i].units| == counts[i]
    ensures var n := Offset(counts, i) + |Named(types[i].units)| + 1;
            && !Used(types, n)
            && |Named(types[i].units[u := Room(n)])| == |Named(types[i].units)| + 1
            && |types[i].units[u := Room(n)]| == counts[i]
            && var t := RoomType(types[i].units[u := Room(n)], revision);
               Orderly(types[i := t], counts) && DoneBefore(types[i := t], counts, i) && |types[i := t]| == |types|
  {
    var offset, units := Offset(counts, i), types[i].units;
    var n := offset + |Named(units)| + 1;
    assert Shaped(types, counts, i);
    AboveAllIsFree(types, counts, n);
    BlockGrows(units, offset, u);
    SameSize(units, u, Room(n));
    OrderlyWith(types, counts, i, RoomType(units[u := Room(n)], revision));
  }

  lemma {:induction false} AllNamed(types: map<nat, RoomType>, counts: seq<nat>, i: nat)
    requires Orderly(types, counts) && i in types && i < |counts| && |types[i].units| == counts[i] > 0
    requires forall u :: u in types[i].units ==> types[i].units[u].Room?
    ensures Finished(types, counts, i) && |Named(types[i].units)| == counts[i]
  {
    CompleteIsNamed(types[i], counts[i]);
  }
}
