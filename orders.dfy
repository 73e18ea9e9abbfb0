/** The merged order table the dashboard works on, and the two sidebar
    filters that narrow it (dashboard/dashboard.py, lines 79-92). */
module Orders {

  /** Seconds in one calendar day; timestamps are whole seconds. */
  const SECONDS_PER_DAY: int := 86400

  /** The state choice that switches the state filter off. */
  const ALL_STATES: string := "All"

  /** A `delivery_delay_days` cell: whole days, or missing (NaN) for an
      order with no recorded delivery. */
  datatype Delay = Days(days: int) | Missing

  /** One row of the merged table, already parsed: timestamps are whole
      seconds since the epoch, money is in integer cents. */
  datatype Row = Row(
    customerUniqueId: string,
    orderId: string,
    purchaseTime: int,
    totalPayment: int,
    customerState: string,
    deliveryDelayDays: Delay)

  /** The calendar day (`.dt.date`) of a timestamp, as a day number. */
  function DateOf(t: int): (day: int)
    ensures SECONDS_PER_DAY * day <= t < SECONDS_PER_DAY * (day + 1)
  {
    t / SECONDS_PER_DAY
  }

  /** The rows a boolean mask keeps, in their original order. */
  function Keep(rows: seq<Row>, p: Row -> bool): (kept: seq<Row>)
    ensures |kept| <= |rows|
    ensures forall r :: r in kept <==> r in rows && p(r)
  {
    if rows == [] then []
    else
      (if p(rows[0]) then [rows[0]] else []) + Keep(rows[1..], p)
  }

  /** Every row the mask accepts is kept as often as it occurs, and no
      other row is kept at all. */
  lemma {:induction false} KeepCounts(rows: seq<Row>, p: Row -> bool)
    ensures forall r :: multiset(Keep(rows, p))[r] == if p(r) then multiset(rows)[r] else 0
  {
    if rows != [] {
      KeepCounts(rows[1..], p);
      assert rows == [rows[0]] + rows[1..];
    }
  }

  /** Masking commutes with concatenation: kept rows stay in input order. */
  lemma {:induction false} KeepAppend(a: seq<Row>, b: seq<Row>, p: Row -> bool)
    ensures Keep(a + b, p) == Keep(a, p) + Keep(b, p)
  {
    if a == [] {
      assert a + b == b;
    } else {
      assert (a + b)[1..] == a[1..] + b;
      KeepAppend(a[1..], b, p);
    }
  }

  /** A mask that holds for every row keeps the table unchanged. */
  lemma {:induction false} KeepEverything(rows: seq<Row>, p: Row -> bool)
    requires forall r :: r in rows ==> p(r)
    ensures Keep(rows, p) == rows
  {
    if rows != [] {
      KeepEverything(rows[1..], p);
    }
  }

  /** Masking twice is masking once by the conjunction. */
  lemma {:induction false} KeepTwice(rows: seq<Row>, p: Row -> bool, q: Row -> bool, both: Row -> bool)
    requires forall r :: r in rows ==> both(r) == (p(r) && q(r))
    ensures Keep(Keep(rows, p), q) == Keep(rows, both)
  {
    if rows != [] {
      var x, rest := rows[0], rows[1..];
      var head := if p(x) then [x] else [];
      assert Keep(rows, p) == head + Keep(rest, p);
      KeepAppend(head, Keep(rest, p), q);
      KeepTwice(rest, p, q, both);
      assert Keep(head, q) == if both(x) then [x] else [] by {
        if p(x) {
          assert Keep([x], q) == (if q(x) then [x] else []) + Keep([], q);
        }
      }
      assert Keep(rows, both) == (if both(x) then [x] else []) + Keep(rest, both);
    }
  }

  /** Whether a row survives the date-range filter and the state filter. */
  predicate Selected(r: Row, dateRange: seq<int>, selectedState: string)
    ensures |dateRange| == 2 && Selected(r, dateRange, selectedState) ==>
      SECONDS_PER_DAY * dateRange[0] <= r.purchaseTime < SECONDS_PER_DAY * (dateRange[1] + 1)
    ensures (&& |dateRange| == 2 && selectedState == ALL_STATES
             && SECONDS_PER_DAY * dateRange[0] <= r.purchaseTime < SECONDS_PER_DAY * (dateRange[1] + 1))
      ==> Selected(r, dateRange, selectedState)
    ensures |dateRange| != 2 && selectedState == ALL_STATES ==> Selected(r, dateRange, selectedState)
  {
    && (|dateRange| == 2 ==> dateRange[0] <= DateOf(r.purchaseTime) <= dateRange[1])
    && (selectedState != ALL_STATES ==> r.customerState == selectedState)
  }

  /** The two filters applied in turn to the loaded table. */
  method FilterOrders(mainRows: seq<Row>, dateRange: seq<int>, selectedState: string)
    returns (filtered: seq<Row>)
    ensures filtered == Keep(mainRows, r => Selected(r, dateRange, selectedState))
    ensures forall r ::
      multiset(filtered)[r] == if Selected(r, dateRange, selectedState) then multiset(mainRows)[r] else 0
    ensures |dateRange| != 2 && selectedState == ALL_STATES ==> filtered == mainRows
  {
    var inRange := (r: Row) => |dateRange| == 2 ==> dateRange[0] <= DateOf(r.purchaseTime) <= dateRange[1];
    var inState := (r: Row) => r.customerState == selectedState;
    var selected := (r: Row) => Selected(r, dateRange, selectedState);
    if |dateRange| == 2 {
      filtered := Keep(mainRows, inRange);
    } else {
      filtered := mainRows;
      KeepEverything(mainRows, inRange);
    }
    if selectedState != ALL_STATES {
      KeepTwice(mainRows, inRange, inState, selected);
      filtered := Keep(filtered, inState);
    } else {
      KeepTwice(mainRows, inRange, r => true, selected);
      KeepEverything(filtered, r => true);
    }
    KeepCounts(mainRows, selected);
  }
}
