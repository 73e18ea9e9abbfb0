/** What `groupby(...).agg(...)` does to the order table: the group keys in
    sorted order, and the per-key distinct counts and sums
    (dashboard/dashboard.py, lines 266-270 and 387-391). */
module Grouping {
  import opened Orders

  /** Python's ordering of `str` values: lexicographic by code point. */
  predicate LexLess(a: string, b: string)
    decreases |a|
  {
    if a == [] then b != []
    else if b == [] then false
    else a[0] < b[0] || (a[0] == b[0] && LexLess(a[1..], b[1..]))
  }

  lemma {:induction false} LexLessIrreflexive(a: string)
    ensures !LexLess(a, a)
    decreases |a|
  {
    if a != [] {
      LexLessIrreflexive(a[1..]);
    }
  }

  lemma {:induction false} LexLessTransitive(a: string, b: string, c: string)
    requires LexLess(a, b) && LexLess(b, c)
    ensures LexLess(a, c)
    decreases |a|
  {
    if a != [] && b != [] && c != [] && a[0] == b[0] == c[0] {
      LexLessTransitive(a[1..], b[1..], c[1..]);
    }
  }

  lemma {:induction false} LexLessTotal(a: string, b: string)
    requires a != b
    ensures LexLess(a, b) || LexLess(b, a)
    decreases |a|
  {
    if a != [] && b != [] && a[0] == b[0] {
      assert a == [a[0]] + a[1..] && b == [b[0]] + b[1..];
      LexLessTotal(a[1..], b[1..]);
    }
  }

  /** Keys in strictly increasing order, hence without repeats. */
  predicate StrictlySorted(keys: seq<string>)
  {
    forall i, j :: 0 <= i < j < |keys| ==> LexLess(keys[i], keys[j])
  }

  /** Adds one key to a sorted key list, unless it is already there. */
  function InsertKey(k: string, keys: seq<string>): (r: seq<string>)
    requires StrictlySorted(keys)
    ensures StrictlySorted(r)
    ensures forall x :: x in r <==> x == k || x in keys
  {
    if keys == [] then [k]
    else if k == keys[0] then keys
    else if LexLess(k, keys[0]) then
      assert forall j :: 0 < j < |keys| ==> LexLess(k, keys[j]) by {
        forall j | 0 < j < |keys| {
          LexLessTransitive(k, keys[0], keys[j]);
        }
      }
      [k] + keys
    else
      LexLessTotal(k, keys[0]);
      var tail := InsertKey(k, keys[1..]);
      assert forall x :: x in tail ==> LexLess(keys[0], x);
      [keys[0]] + tail
  }

  /** The distinct keys of a column, sorted as `groupby` sorts them. */
  function GroupKeys(column: seq<string>): (keys: seq<string>)
    ensures StrictlySorted(keys)
    ensures forall x :: x in keys <==> x in column
  {
    if column == [] then []
    else
      var n := |column| - 1;
      assert column == column[..n] + [column[n]];
      InsertKey(column[n], GroupKeys(column[..n]))
  }

  /** A strictly sorted key list has as many entries as distinct keys. */
  lemma {:induction false} StrictlySortedCount(keys: seq<string>)
    requires StrictlySorted(keys)
    ensures |set k | k in keys| == |keys|
  {
    if keys != [] {
      var rest := keys[1..];
      StrictlySortedCount(rest);
      LexLessIrreflexive(keys[0]);
      assert keys[0] !in rest;
      assert (set k | k in keys) == {keys[0]} + (set k | k in rest);
    }
  }

  /** The column a table is grouped by. */
  datatype GroupBy = ByCustomer | ByState

  function Key(r: Row, g: GroupBy): string
  {
    match g
    case ByCustomer => r.customerUniqueId
    case ByState => r.customerState
  }

  /** The grouping column of a table. */
  function KeyColumn(rows: seq<Row>, g: GroupBy): (column: seq<string>)
    ensures |column| == |rows|
    ensures forall i :: 0 <= i < |rows| ==> column[i] == Key(rows[i], g)
  {
    seq(|rows|, i requires 0 <= i < |rows| => Key(rows[i], g))
  }

  /** The distinct keys present in a table. */
  function KeySet(rows: seq<Row>, g: GroupBy): set<string>
  {
    set r | r in rows :: Key(r, g)
  }

  /** The keys of a grouped table: exactly the keys present, once each, sorted. */
  function KeysOf(rows: seq<Row>, g: GroupBy): (keys: seq<string>)
    ensures StrictlySorted(keys)
    ensures forall k :: k in keys <==> exists r :: r in rows && Key(r, g) == k
    ensures |keys| == |KeySet(rows, g)|
  {
    var column := KeyColumn(rows, g);
    var keys := GroupKeys(column);
    assert forall k :: k in column <==> exists r :: r in rows && Key(r, g) == k by {
      forall k | k in column ensures exists r :: r in rows && Key(r, g) == k {
        var i :| 0 <= i < |column| && column[i] == k;
        assert rows[i] in rows;
      }
      forall k | exists r :: r in rows && Key(r, g) == k ensures k in column {
        var r :| r in rows && Key(r, g) == k;
        var i :| 0 <= i < |rows| && rows[i] == r;
        assert column[i] == k;
      }
    }
    StrictlySortedCount(keys);
    assert (set k | k in keys) == KeySet(rows, g);
    keys
  }

  /** Sum of `total_payment` over a table. */
  function TotalPayment(rows: seq<Row>): int
  {
    if rows == [] then 0 else rows[0].totalPayment + TotalPayment(rows[1..])
  }

  /** The rows of one group, in table order. */
  function GroupRows(rows: seq<Row>, g: GroupBy, k: string): (group: seq<Row>)
    ensures |group| <= |rows|
    ensures forall r :: r in group <==> r in rows && Key(r, g) == k
  {
    Keep(rows, r => Key(r, g) == k)
  }

  /** Sum of `total_payment` over the rows of one group (`'sum'`). */
  function PaymentsOf(rows: seq<Row>, g: GroupBy, k: string): int
  {
    if rows == [] then 0
    else (if Key(rows[0], g) == k then rows[0].totalPayment else 0) + PaymentsOf(rows[1..], g, k)
  }

  /** A group's sum is the total payment of exactly the group's rows. */
  lemma {:induction false} PaymentsOfGroup(rows: seq<Row>, g: GroupBy, k: string)
    ensures PaymentsOf(rows, g, k) == TotalPayment(GroupRows(rows, g, k))
  {
    if rows != [] {
      PaymentsOfGroup(rows[1..], g, k);
      var group := GroupRows(rows, g, k);
      var rest := GroupRows(rows[1..], g, k);
      if Key(rows[0], g) == k {
        assert group == [rows[0]] + rest;
        assert group[1..] == rest;
      } else {
        assert group == rest;
      }
    }
  }

  /** The distinct `order_id`s of one group (`nunique`): every order of the
      group and nothing else. */
  function OrdersOf(rows: seq<Row>, g: GroupBy, k: string): (orders: set<string>)
    ensures forall r :: r in rows && Key(r, g) == k ==> r.orderId in orders
    ensures forall o :: o in orders ==> exists r :: r in rows && Key(r, g) == k && r.orderId == o
  {
    if rows == [] then {}
    else
      var rest := OrdersOf(rows[1..], g, k);
      assert rows == [rows[0]] + rows[1..];
      if Key(rows[0], g) == k then {rows[0].orderId} + rest else rest
  }

  /** A group never has more distinct orders than rows. */
  lemma {:induction false} OrdersAtMostRows(rows: seq<Row>, g: GroupBy, k: string)
    ensures |OrdersOf(rows, g, k)| <= |GroupRows(rows, g, k)|
  {
    if rows != [] {
      OrdersAtMostRows(rows[1..], g, k);
      var rest := OrdersOf(rows[1..], g, k);
      if Key(rows[0], g) == k {
        assert GroupRows(rows, g, k) == [rows[0]] + GroupRows(rows[1..], g, k);
        assert OrdersOf(rows, g, k) == {rows[0].orderId} + rest;
      } else {
        assert GroupRows(rows, g, k) == GroupRows(rows[1..], g, k);
      }
    }
  }

  /** A group that has a row has at least one distinct order. */
  lemma OrdersOfPresent(rows: seq<Row>, g: GroupBy, k: string)
    requires exists r :: r in rows && Key(r, g) == k
    ensures |OrdersOf(rows, g, k)| >= 1
  {
    var r :| r in rows && Key(r, g) == k;
    assert r.orderId in OrdersOf(rows, g, k);
  }

  /** With non-negative payments every group sum is non-negative. */
  lemma {:induction false} PaymentsOfNonNegative(rows: seq<Row>, g: GroupBy, k: string)
    requires forall r :: r in rows ==> r.totalPayment >= 0
    ensures PaymentsOf(rows, g, k) >= 0
  {
    if rows != [] {
      PaymentsOfNonNegative(rows[1..], g, k);
    }
  }

  /** Sum of the group sums over a list of keys. */
  function PaymentsOverKeys(rows: seq<Row>, g: GroupBy, keys: seq<string>): int
  {
    if keys == [] then 0 else PaymentsOf(rows, g, keys[0]) + PaymentsOverKeys(rows, g, keys[1..])
  }

  predicate Distinct(keys: seq<string>)
  {
    forall i, j :: 0 <= i < j < |keys| ==> keys[i] != keys[j]
  }

  lemma {:induction false} PaymentsOverKeysEmpty(g: GroupBy, keys: seq<string>)
    ensures PaymentsOverKeys([], g, keys) == 0
  {
    if keys != [] {
      PaymentsOverKeysEmpty(g, keys[1..]);
    }
  }

  /** Peeling the first row off every group sum at once. */
  lemma {:induction false} PaymentsOverKeysStep(rows: seq<Row>, g: GroupBy, keys: seq<string>)
    requires rows != [] && Distinct(keys)
    ensures PaymentsOverKeys(rows, g, keys) ==
      (if Key(rows[0], g) in keys then rows[0].totalPayment else 0) + PaymentsOverKeys(rows[1..], g, keys)
  {
    if keys != [] {
      PaymentsOverKeysStep(rows, g, keys[1..]);
      assert keys[0] !in keys[1..];
      assert keys == [keys[0]] + keys[1..];
    }
  }

  /** Grouping loses no money: the group sums over all the keys add up to the
      table's total. */
  lemma {:induction false} PaymentsPartition(rows: seq<Row>, g: GroupBy, keys: seq<string>)
    requires Distinct(keys)
    requires forall r :: r in rows ==> Key(r, g) in keys
    ensures PaymentsOverKeys(rows, g, keys) == TotalPayment(rows)
  {
    if rows == [] {
      PaymentsOverKeysEmpty(g, keys);
    } else {
      PaymentsOverKeysStep(rows, g, keys);
      PaymentsPartition(rows[1..], g, keys);
    }
  }

  /** Strictly sorted keys are distinct. */
  lemma StrictlySortedDistinct(keys: seq<string>)
    requires StrictlySorted(keys)
    ensures Distinct(keys)
  {
    forall i, j | 0 <= i < j < |keys| ensures keys[i] != keys[j] {
      LexLessIrreflexive(keys[i]);
    }
  }
}
