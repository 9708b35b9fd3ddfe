/** An SQL UPDATE of a whole table under a unique key. The rows are visited in an order the statement does not fix;
a key that is not deferrable is checked at every row, against the rows as they are at that moment. */
module RowUpdates {
  import opened Options

  /** When the key is checked: at every row, or once the statement is done. */
  datatype KeyCheck = RowByRow | AtEnd

  /** An order that visits each of n rows once. */
  ghost predicate Visits(order: seq<nat>, n: nat) {
    && |order| == n
    && (forall k :: 0 <= k < |order| ==> order[k] < n)
    && (forall k, l :: 0 <= k < l < |order| ==> order[k] != order[l])
    && (forall i: nat :: i < n ==> i in order)
  }

  ghost predicate Unique<T>(rows: seq<T>, clash: (T, T) -> bool) {
    forall i, j :: 0 <= i < |rows| && 0 <= j < |rows| && i != j ==> !clash(rows[i], rows[j])
  }

  function Renamed<T>(rows: seq<T>, rename: T -> T): (r: seq<T>)
    ensures |r| == |rows| && forall i :: 0 <= i < |rows| ==> r[i] == rename(rows[i])
  {
    seq(|rows|, i requires 0 <= i < |rows| => rename(rows[i]))
  }

  /** No row takes a key that a row visited after it still has. */
  ghost predicate NoneInTheWay<T>(rows: seq<T>, rename: T -> T, clash: (T, T) -> bool, order: seq<nat>)
    requires Visits(order, |rows|)
  {
    forall a, b :: 0 <= a < b < |order| ==> !clash(rename(rows[order[a]]), rows[order[b]])
  }

  /** When the UPDATE goes through. */
  ghost predicate Goes<T>(rows: seq<T>, rename: T -> T, clash: (T, T) -> bool, check: KeyCheck, order: seq<nat>)
    requires Visits(order, |rows|)
  {
    Unique(Renamed(rows, rename), clash) && (check == AtEnd || NoneInTheWay(rows, rename, clash, order))
  }

  ghost predicate Symmetric<T(!new)>(clash: (T, T) -> bool) { forall a, b :: clash(a, b) ==> clash(b, a) }

  /** The table after the first n visits. */
  ghost predicate Halfway<T>(rows: seq<T>, rename: T -> T, order: seq<nat>, n: nat, current: seq<T>)
    requires Visits(order, |rows|) && n <= |order|
  {
    && |current| == |rows|
    && (forall a :: 0 <= a < n ==> current[order[a]] == rename(rows[order[a]]))
    && (forall b :: n <= b < |order| ==> current[order[b]] == rows[order[b]])
  }

  /** The visits so far met no key in use. */
  ghost predicate ClearSoFar<T>(rows: seq<T>, rename: T -> T, clash: (T, T) -> bool, order: seq<nat>, n: nat)
    requires Visits(order, |rows|) && n <= |order|
  {
    && (forall a, b :: 0 <= a < b < |order| && a < n ==> !clash(rename(rows[order[a]]), rows[order[b]]))
    && (forall a, b :: 0 <= a < b < n ==> !clash(rename(rows[order[b]]), rename(rows[order[a]])))
  }

  /** The row about to be written meets no other row's key. */
  predicate Free<T>(current: seq<T>, i: nat, row: T, clash: (T, T) -> bool) {
    forall j :: 0 <= j < |current| && j != i ==> !clash(row, current[j])
  }

  lemma VisitClear<T>(rows: seq<T>, rename: T -> T, clash: (T, T) -> bool, order: seq<nat>, n: nat, current: seq<T>)
    requires Visits(order, |rows|) && n < |order| && Halfway(rows, rename, order, n, current)
    requires ClearSoFar(rows, rename, clash, order, n)
    ensures ClearSoFar(rows, rename, clash, order, n + 1) <==> Free(current, order[n], rename(rows[order[n]]), clash)
  {
    var row := rename(rows[order[n]]);
    if Free(current, order[n], row, clash) {
      forall b | n < b < |order| ensures !clash(row, rows[order[b]]) { assert current[order[b]] == rows[order[b]]; }
      forall a | 0 <= a < n ensures !clash(row, rename(rows[order[a]])) { assert current[order[a]] == rename(rows[order[a]]); }
    }
    if ClearSoFar(rows, rename, clash, order, n + 1) {
      forall j: nat | j < |current| && j != order[n] ensures !clash(row, current[j]) {
        assert j in order;
        var k :| 0 <= k < |order| && order[k] == j;
      }
    }
  }

  /** All visits clear means that the statement goes through, and the other way round. */
  lemma AllClear<T(!new)>(rows: seq<T>, rename: T -> T, clash: (T, T) -> bool, order: seq<nat>)
    requires Visits(order, |rows|) && Symmetric(clash)
    ensures ClearSoFar(rows, rename, clash, order, |order|) <==> Goes(rows, rename, clash, RowByRow, order)
  {
    var after := Renamed(rows, rename);
    if ClearSoFar(rows, rename, clash, order, |order|) {
      forall i: nat, j: nat | i < |after| && j < |after| && i != j ensures !clash(after[i], after[j]) {
        assert i in order && j in order;
        var a :| 0 <= a < |order| && order[a] == i;
        var b :| 0 <= b < |order| && order[b] == j;
        assert a < b ==> !clash(rename(rows[order[b]]), rename(rows[order[a]]));
        assert b < a ==> !clash(rename(rows[order[a]]), rename(rows[order[b]]));
      }
    }
    if Unique(after, clash) {
      forall a, b | 0 <= a < b < |order| ensures !clash(rename(rows[order[b]]), rename(rows[order[a]])) {
        assert !clash(after[order[b]], after[order[a]]);
      }
    }
  }

  lemma ClearBefore<T>(rows: seq<T>, rename: T -> T, clash: (T, T) -> bool, order: seq<nat>, n: nat)
    requires Visits(order, |rows|) && n <= |order| && ClearSoFar(rows, rename, clash, order, |order|)
    ensures ClearSoFar(rows, rename, clash, order, n)
  {
  }

  lemma VisitedAll<T>(rows: seq<T>, rename: T -> T, order: seq<nat>, current: seq<T>)
    requires Visits(order, |rows|) && Halfway(rows, rename, order, |order|, current)
    ensures current == Renamed(rows, rename)
  {
    forall i: nat | i < |rows| ensures current[i] == rename(rows[i]) {
      assert i in order;
      var k :| 0 <= k < |order| && order[k] == i;
    }
  }

  lemma VisitMoves<T>(rows: seq<T>, rename: T -> T, order: seq<nat>, n: nat, current: seq<T>)
    requires Visits(order, |rows|) && n < |order| && Halfway(rows, rename, order, n, current)
    ensures current[order[n]] == rows[order[n]]
    ensures Halfway(rows, rename, order, n + 1, current[order[n] := rename(rows[order[n]])])
  {
  }

  /** Some two rows have one key. */
  predicate Repeated<T>(rows: seq<T>, clash: (T, T) -> bool) {
    exists i, j :: 0 <= i < |rows| && 0 <= j < |rows| && i != j && clash(rows[i], rows[j])
  }

  lemma NotRepeated<T>(rows: seq<T>, clash: (T, T) -> bool)
    ensures Repeated(rows, clash) <==> !Unique(rows, clash)
  {
  }

  /** The statement, row after row. */
  method UpdateRows<T(!new)>(rows: seq<T>, rename: T -> T, clash: (T, T) -> bool, check: KeyCheck, order: seq<nat>) returns (after: Option<seq<T>>)
    requires Visits(order, |rows|) && Symmetric(clash)
    ensures after == if Goes(rows, rename, clash, check, order) then Some(Renamed(rows, rename)) else None
  {
    var current := rows;
    AllClear(rows, rename, clash, order);
    for n := 0 to |order|
      invariant Halfway(rows, rename, order, n, current)
      invariant check == RowByRow ==> ClearSoFar(rows, rename, clash, order, n)
    {
      VisitMoves(rows, rename, order, n, current);
      var row := rename(current[order[n]]);
      if check == RowByRow {
        VisitClear(rows, rename, clash, order, n, current);
        if !Free(current, order[n], row, clash) {
          if Goes(rows, rename, clash, check, order) { ClearBefore(rows, rename, clash, order, n + 1); }
          return None;
        }
      }
      current := current[order[n] := row];
    }
    VisitedAll(rows, rename, order, current);
    NotRepeated(current, clash);
    if check == AtEnd && Repeated(current, clash) { return None; }
    after := Some(current);
  }

  // ----- whatever the order -----

  /** No row's new key is another row's current key. */
  ghost predicate NoOverlap<T>(rows: seq<T>, rename: T -> T, clash: (T, T) -> bool) {
    forall i, j :: 0 <= i < |rows| && 0 <= j < |rows| && i != j ==> !clash(rename(rows[i]), rows[j])
  }

  function Upwards(n: nat): seq<nat> { seq(n, k => k) }
  function Downwards(n: nat): seq<nat> { seq(n, k requires 0 <= k < n => n - 1 - k) }

  lemma BothVisit(n: nat)
    ensures Visits(Upwards(n), n) && Visits(Downwards(n), n)
  {
    forall i: nat | i < n ensures i in Upwards(n) && i in Downwards(n) {
      assert Upwards(n)[i] == i && Downwards(n)[n - 1 - i] == i;
    }
  }

  /** An order that visits one of two rows before the other. */
  function Before(n: nat, i: nat, j: nat): seq<nat> { if i < j then Upwards(n) else Downwards(n) }

  /** Under a check at every row the statement goes through in every order exactly when no new key overlaps another
  row's current one. */
  lemma GoesInEveryOrder<T>(rows: seq<T>, rename: T -> T, clash: (T, T) -> bool)
    requires Unique(Renamed(rows, rename), clash)
    ensures (forall order :: Visits(order, |rows|) ==> Goes(rows, rename, clash, RowByRow, order)) <==> NoOverlap(rows, rename, clash)
  {
    if i, j :| 0 <= i < |rows| && 0 <= j < |rows| && i != j && clash(rename(rows[i]), rows[j]) {
      Refused(rows, rename, clash, i, j);
    }
  }

  lemma Refused<T>(rows: seq<T>, rename: T -> T, clash: (T, T) -> bool, i: nat, j: nat)
    requires i < |rows| && j < |rows| && i != j && clash(rename(rows[i]), rows[j])
    ensures Visits(Before(|rows|, i, j), |rows|) && !Goes(rows, rename, clash, RowByRow, Before(|rows|, i, j))
  {
    var n := |rows|;
    BothVisit(n);
    var order := Before(n, i, j);
    var a, b := if i < j then i else n - 1 - i, if i < j then j else n - 1 - j;
    assert order[a] == i && order[b] == j && a < b;
  }
}
