/** The geospatial page: per-state customers, orders and revenue, the states
    ranked by revenue, and the top-ten-plus-"Others" pie
    (dashboard/dashboard.py, lines 387-395 and 452-455). */
module Geo {
  import opened Orders
  import opened Grouping

  /** How many states the bar charts and the pie show by name (`head(10)`). */
  const TOP_STATES: nat := 10

  /** The pie slice that gathers every state after the top ten. */
  const OTHERS: string := "Others"

  /** One row of `state_analysis`: the state, its distinct customers, its
      distinct orders and its summed payments (in cents). */
  datatype StateSummary = StateSummary(state: string, customers: nat, orders: nat, revenue: int)

  /** The distinct `customer_unique_id`s of one state (`nunique`): every
      customer with a row in the state and nobody else. */
  function CustomersOf(rows: seq<Row>, s: string): (customers: set<string>)
    ensures forall r :: r in rows && r.customerState == s ==> r.customerUniqueId in customers
    ensures forall c :: c in customers ==> exists r :: r in rows && r.customerState == s && r.customerUniqueId == c
  {
    if rows == [] then {}
    else
      var rest := CustomersOf(rows[1..], s);
      assert rows == [rows[0]] + rows[1..];
      if rows[0].customerState == s then {rows[0].customerUniqueId} + rest else rest
  }

  /** A state never has more distinct customers than rows. */
  lemma {:induction false} CustomersAtMostRows(rows: seq<Row>, s: string)
    ensures |CustomersOf(rows, s)| <= |GroupRows(rows, ByState, s)|
  {
    if rows != [] {
      CustomersAtMostRows(rows[1..], s);
      var rest := CustomersOf(rows[1..], s);
      if rows[0].customerState == s {
        assert GroupRows(rows, ByState, s) == [rows[0]] + GroupRows(rows[1..], ByState, s);
        assert CustomersOf(rows, s) == {rows[0].customerUniqueId} + rest;
      } else {
        assert GroupRows(rows, ByState, s) == GroupRows(rows[1..], ByState, s);
      }
    }
  }

  /** The aggregated row of one state. */
  function SummarizeState(rows: seq<Row>, s: string): (summary: StateSummary)
    ensures summary.state == s
    ensures summary.revenue == PaymentsOf(rows, ByState, s)
  {
    StateSummary(s, |CustomersOf(rows, s)|, |OrdersOf(rows, ByState, s)|, PaymentsOf(rows, ByState, s))
  }

  /** A state that occurs in the table has at least one customer and one order. */
  lemma StatePresentCounts(rows: seq<Row>, s: string)
    requires HasState(rows, s)
    ensures SummarizeState(rows, s).customers >= 1
    ensures SummarizeState(rows, s).orders >= 1
  {
    var r :| r in rows && r.customerState == s;
    assert r.customerUniqueId in CustomersOf(rows, s);
    assert r.orderId in OrdersOf(rows, ByState, s);
  }

  predicate HasState(rows: seq<Row>, s: string)
  {
    exists r :: r in rows && r.customerState == s
  }

  /** The aggregated rows of a list of states. */
  function SummarizeAll(rows: seq<Row>, keys: seq<string>): (table: seq<StateSummary>)
    ensures |table| == |keys|
    ensures forall i :: 0 <= i < |keys| ==> table[i] == SummarizeState(rows, keys[i])
  {
    seq(|keys|, i requires 0 <= i < |keys| => SummarizeState(rows, keys[i]))
  }

  /** `groupby('customer_state').agg(...)`: one row per state that occurs in
      the table. */
  function SummarizeStates(rows: seq<Row>): (table: seq<StateSummary>)
    ensures |table| == |KeySet(rows, ByState)|
    ensures forall s :: HasState(rows, s) <==> exists i :: 0 <= i < |table| && table[i].state == s
    ensures forall i :: 0 <= i < |table| ==> table[i] == SummarizeState(rows, table[i].state)
  {
    var keys := KeysOf(rows, ByState);
    assert forall s :: s in keys <==> HasState(rows, s);
    SummarizedStates(rows, keys);
    SummarizeAll(rows, keys)
  }

  /** Each listed state has its row in the summary, at its own position. */
  lemma SummarizedStates(rows: seq<Row>, keys: seq<string>)
    ensures forall s :: s in keys <==> exists i :: 0 <= i < |SummarizeAll(rows, keys)| && SummarizeAll(rows, keys)[i].state == s
  {
    var table := SummarizeAll(rows, keys);
    forall s | s in keys
      ensures exists i :: 0 <= i < |table| && table[i].state == s
    {
      var i :| 0 <= i < |keys| && keys[i] == s;
      assert table[i].state == s;
    }
  }

  /** `groupby` sorts its keys: the states come in ascending order. */
  lemma SummarizeStatesSorted(rows: seq<Row>)
    ensures forall i, j :: 0 <= i < j < |SummarizeStates(rows)| ==>
      LexLess(SummarizeStates(rows)[i].state, SummarizeStates(rows)[j].state)
  {
    var keys := KeysOf(rows, ByState);
    assert forall s :: s in keys <==> HasState(rows, s);
    assert SummarizeStates(rows) == SummarizeAll(rows, keys);
  }

  /** Total of a revenue column. */
  function Revenue(table: seq<StateSummary>): int
  {
    if table == [] then 0 else table[0].revenue + Revenue(table[1..])
  }

  lemma {:induction false} RevenueAppend(a: seq<StateSummary>, b: seq<StateSummary>)
    ensures Revenue(a + b) == Revenue(a) + Revenue(b)
  {
    if a == [] {
      assert a + b == b;
    } else {
      assert (a + b)[1..] == a[1..] + b;
      RevenueAppend(a[1..], b);
    }
  }

  lemma {:induction false} RevenueOverKeys(rows: seq<Row>, keys: seq<string>, table: seq<StateSummary>)
    requires |table| == |keys|
    requires forall i :: 0 <= i < |keys| ==> table[i].revenue == PaymentsOf(rows, ByState, keys[i])
    ensures Revenue(table) == PaymentsOverKeys(rows, ByState, keys)
  {
    if keys != [] {
      RevenueOverKeys(rows, keys[1..], table[1..]);
    }
  }

  /** Grouping by state neither loses nor invents revenue. */
  lemma StatesRevenueTotal(rows: seq<Row>)
    ensures Revenue(SummarizeStates(rows)) == TotalPayment(rows)
  {
    var keys := KeysOf(rows, ByState);
    assert forall s :: s in keys <==> HasState(rows, s);
    var table := SummarizeStates(rows);
    assert table == SummarizeAll(rows, keys);
    RevenueOverKeys(rows, keys, table);
    StrictlySortedDistinct(keys);
    forall r | r in rows ensures Key(r, ByState) in keys {
    }
    PaymentsPartition(rows, ByState, keys);
  }

  // ----- Ranking by revenue (line 395) -----

  predicate RevenueDescending(table: seq<StateSummary>)
  {
    forall i, j :: 0 <= i < j < |table| ==> table[i].revenue >= table[j].revenue
  }

  /** A ranked table stays ranked under a head at least as large as its first entry. */
  lemma DescendingCons(h: StateSummary, t: seq<StateSummary>)
    requires RevenueDescending(t) && (t == [] || h.revenue >= t[0].revenue)
    ensures RevenueDescending([h] + t)
  {
    var r := [h] + t;
    forall i, j | 0 <= i < j < |r| ensures r[i].revenue >= r[j].revenue {
      if i > 0 {
        assert r[i] == t[i - 1] && r[j] == t[j - 1];
      } else {
        assert r[j] == t[j - 1];
      }
    }
  }

  /** Places one state before the first state with less revenue. */
  function InsertByRevenue(x: StateSummary, t: seq<StateSummary>): (r: seq<StateSummary>)
    requires RevenueDescending(t)
    ensures RevenueDescending(r)
    ensures multiset(r) == multiset(t) + multiset{x}
    ensures |r| == |t| + 1 && r[0] == if t == [] || x.revenue >= t[0].revenue then x else t[0]
  {
    if t == [] || x.revenue >= t[0].revenue then
      DescendingCons(x, t);
      [x] + t
    else
      assert t == [t[0]] + t[1..];
      var tail := InsertByRevenue(x, t[1..]);
      DescendingCons(t[0], tail);
      [t[0]] + tail
  }

  /** Inserting a state adds its revenue to the column total. */
  lemma {:induction false} InsertRevenue(x: StateSummary, t: seq<StateSummary>)
    requires RevenueDescending(t)
    ensures Revenue(InsertByRevenue(x, t)) == x.revenue + Revenue(t)
  {
    if t != [] && x.revenue < t[0].revenue {
      InsertRevenue(x, t[1..]);
    }
  }

  /** `sort_values('revenue', ascending=False)`: the same rows, largest
      revenue first. */
  function RankByRevenue(table: seq<StateSummary>): (ranked: seq<StateSummary>)
    ensures RevenueDescending(ranked)
    ensures multiset(ranked) == multiset(table)
    ensures |ranked| == |table|
    ensures Revenue(ranked) == Revenue(table)
  {
    if table == [] then []
    else
      assert table == [table[0]] + table[1..];
      var rest := RankByRevenue(table[1..]);
      InsertRevenue(table[0], rest);
      InsertByRevenue(table[0], rest)
  }

  /** `state_analysis.iloc[0]` is a state of largest revenue. */
  lemma TopStateLeads(table: seq<StateSummary>)
    requires table != []
    ensures var ranked := RankByRevenue(table);
      && ranked[0] in table
      && forall i :: 0 <= i < |table| ==> ranked[0].revenue >= table[i].revenue
  {
    var ranked := RankByRevenue(table);
    assert ranked[0] in multiset(table);
    forall i | 0 <= i < |table| ensures ranked[0].revenue >= table[i].revenue {
      assert table[i] in multiset(ranked);
      var j :| 0 <= j < |ranked| && ranked[j] == table[i];
    }
  }

  // ----- The market-concentration pie (lines 452-455) -----

  function Min(a: int, b: int): int
  {
    if a <= b then a else b
  }

  function Sum(s: seq<int>): int
  {
    if s == [] then 0 else s[0] + Sum(s[1..])
  }

  /** The named slices: how many states `head(10)` keeps. */
  function TopCount(ranked: seq<StateSummary>): (k: nat)
    ensures k <= TOP_STATES && k <= |ranked|
    ensures k == TOP_STATES || k == |ranked|
  {
    Min(TOP_STATES, |ranked|)
  }

  /** `pie_data`: the revenue of each of the top ten states, then the summed
      revenue of the rest (`iloc[10:]`, which is 0 when there is no rest). */
  function PieData(ranked: seq<StateSummary>): (pie: seq<int>)
    ensures |pie| == TopCount(ranked) + 1
    ensures forall i :: 0 <= i < TopCount(ranked) ==> pie[i] == ranked[i].revenue
    ensures pie[TopCount(ranked)] == Revenue(ranked[TopCount(ranked)..])
  {
    var k := TopCount(ranked);
    seq(k, i requires 0 <= i < k => ranked[i].revenue) + [Revenue(ranked[k..])]
  }

  /** `pie_labels`: the top ten states, then "Others". */
  function PieLabels(ranked: seq<StateSummary>): (labels: seq<string>)
    ensures |labels| == |PieData(ranked)|
    ensures forall i :: 0 <= i < TopCount(ranked) ==> labels[i] == ranked[i].state
    ensures labels[TopCount(ranked)] == OTHERS
  {
    var k := TopCount(ranked);
    seq(k, i requires 0 <= i < k => ranked[i].state) + [OTHERS]
  }

  lemma {:induction false} SumOfRevenues(t: seq<StateSummary>, pie: seq<int>)
    requires |pie| == |t|
    requires forall i :: 0 <= i < |t| ==> pie[i] == t[i].revenue
    ensures Sum(pie) == Revenue(t)
  {
    if t != [] {
      SumOfRevenues(t[1..], pie[1..]);
    }
  }

  lemma {:induction false} SumAppend(a: seq<int>, b: seq<int>)
    ensures Sum(a + b) == Sum(a) + Sum(b)
  {
    if a == [] {
      assert a + b == b;
    } else {
      assert (a + b)[1..] == a[1..] + b;
      SumAppend(a[1..], b);
    }
  }

  /** The slices add up to the whole: the top ten and "Others" together hold
      every state's revenue, once. */
  lemma PieTotal(ranked: seq<StateSummary>)
    ensures Sum(PieData(ranked)) == Revenue(ranked)
  {
    var k := TopCount(ranked);
    var pie := PieData(ranked);
    assert pie == pie[..k] + [pie[k]];
    SumAppend(pie[..k], [pie[k]]);
    SumOfRevenues(ranked[..k], pie[..k]);
    assert ranked == ranked[..k] + ranked[k..];
    RevenueAppend(ranked[..k], ranked[k..]);
  }

  /** With ten states or fewer the "Others" slice is empty. */
  lemma OthersEmpty(ranked: seq<StateSummary>)
    requires |ranked| <= TOP_STATES
    ensures PieData(ranked)[|ranked|] == 0
  {
    assert ranked[|ranked|..] == [];
  }

  /** No named slice is smaller than any state folded into "Others". */
  lemma PieTopDominates(ranked: seq<StateSummary>, i: int, j: int)
    requires RevenueDescending(ranked)
    requires 0 <= i < TopCount(ranked) <= j < |ranked|
    ensures PieData(ranked)[i] >= ranked[j].revenue
  {
  }

  /** What the page computes from the filtered table: the top state
      (`iloc[0]`, line 401) and the pie with its labels; or the failure of
      `iloc[0]` on a table with no state, which the page's catch-all
      (lines 488-490) turns into an error message before any chart. The bar
      charts between them (lines 423-425 and 438-440) are not modelled, so
      neither is their failure on fewer than ten states. */
  datatype StatePage =
    | StatePage(topState: StateSummary, pie: seq<int>, labels: seq<string>)
    | NoStates

  /** The page drawn from an aggregated state table: `iloc[0]` of the
      revenue ranking and the pie, or no page when the table is empty and
      `iloc[0]` fails. */
  function PageOf(table: seq<StateSummary>): (page: StatePage)
    ensures page.NoStates? <==> table == []
    ensures page.StatePage? ==>
      && page.topState in table
      && (forall i :: 0 <= i < |table| ==> table[i].revenue <= page.topState.revenue)
      && Sum(page.pie) == Revenue(table)
      && |page.pie| == |page.labels| == Min(TOP_STATES, |table|) + 1
      && page.labels[|page.labels| - 1] == OTHERS
  {
    if table == [] then NoStates
    else
      var ranked := RankByRevenue(table);
      TopStateLeads(table);
      PieTotal(ranked);
      StatePage(ranked[0], PieData(ranked), PieLabels(ranked))
  }

  /** Lines 387-401 and 452-456 together. `iloc[0]` fails exactly on an
      empty table; otherwise the top state leads every state in revenue,
      and the pie's slices add up to the table's total payment. */
  function GeoPage(rows: seq<Row>): (page: StatePage)
    ensures page.NoStates? <==> rows == []
    ensures page.StatePage? ==>
      && page.topState in SummarizeStates(rows)
      && (forall i :: 0 <= i < |SummarizeStates(rows)| ==> SummarizeStates(rows)[i].revenue <= page.topState.revenue)
      && Sum(page.pie) == TotalPayment(rows)
      && |page.pie| == |page.labels| == Min(TOP_STATES, |KeySet(rows, ByState)|) + 1
      && page.labels[|page.labels| - 1] == OTHERS
  {
    NoStatesIffEmpty(rows);
    StatesRevenueTotal(rows);
    PageOf(SummarizeStates(rows))
  }

  /** A table has a state exactly when it has a row. */
  lemma NoStatesIffEmpty(rows: seq<Row>)
    ensures SummarizeStates(rows) == [] <==> rows == []
  {
    if rows != [] {
      assert HasState(rows, rows[0].customerState);
    } else {
      assert KeySet(rows, ByState) == {};
    }
  }
}
