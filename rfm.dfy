/** RFM segmentation of the customers in the filtered table
    (dashboard/dashboard.py, lines 264-306): one record per customer with
    recency, frequency and monetary value, a quintile score on each axis,
    their mean and a segment label. */
module Rfm {
  import opened Orders
  import opened Grouping
  import opened Quantiles

  // ----- Segmentation (lines 286-304) -----

  datatype Segment =
    | Champions
    | LoyalCustomers
    | PotentialLoyalist
    | RecentCustomers
    | AtRisk
    | CantLoseThem
    | Hibernating
    | NeedAttention

  predicate InScoreRange(x: int)
  {
    1 <= x <= 5
  }

  predicate InScoreCube(r: int, f: int, m: int)
  {
    InScoreRange(r) && InScoreRange(f) && InScoreRange(m)
  }

  /** `rfm_segment`: eight rules tried in order, the first that matches wins.
      Over the score cube 1..5 the labels partition it into the regions below. */
  function RfmSegment(r: int, f: int, m: int): (s: Segment)
    ensures InScoreCube(r, f, m) ==> (s == Champions <==> r >= 4 && f >= 4 && m >= 4)
    ensures InScoreCube(r, f, m) ==> (s == LoyalCustomers <==> f >= 4 && (r == 3 || (r >= 4 && m <= 3)))
    ensures InScoreCube(r, f, m) ==> (s == PotentialLoyalist <==> r >= 4 && 2 <= f <= 3)
    ensures InScoreCube(r, f, m) ==> (s == RecentCustomers <==> r >= 4 && f == 1)
    ensures InScoreCube(r, f, m) ==> (s == AtRisk <==> r <= 2 && f >= 3)
    ensures InScoreCube(r, f, m) ==> (s == CantLoseThem <==> r <= 2 && f <= 2 && m >= 4)
    ensures InScoreCube(r, f, m) ==> (s == Hibernating <==> r <= 2 && f <= 2 && m <= 3)
    ensures InScoreCube(r, f, m) ==> (s == NeedAttention <==> r == 3 && f <= 3)
  {
    if r >= 4 && f >= 4 && m >= 4 then Champions
    else if r >= 3 && f >= 4 then LoyalCustomers
    else if r >= 4 && f >= 2 && f <= 3 then PotentialLoyalist
    else if r >= 4 && f == 1 then RecentCustomers
    else if r <= 2 && f >= 3 then AtRisk
    else if r <= 2 && m >= 4 then CantLoseThem
    else if r <= 2 && f <= 2 then Hibernating
    else NeedAttention
  }

  /** Where two rules overlap, the earlier one decides. */
  lemma SegmentRuleOrder()
    ensures RfmSegment(4, 4, 4) == Champions && RfmSegment(4, 4, 1) == LoyalCustomers
    ensures RfmSegment(2, 2, 4) == CantLoseThem && RfmSegment(1, 1, 5) == CantLoseThem
    ensures RfmSegment(3, 3, 5) == NeedAttention && RfmSegment(3, 1, 1) == NeedAttention
  {
  }

  // ----- Aggregation (lines 264-272) -----

  /** One row of the grouped table before scoring. */
  datatype CustomerAggregate = CustomerAggregate(
    customerId: string,
    recency: int,
    frequency: nat,
    monetary: int)

  /** The latest purchase timestamp of a non-empty table. */
  function LatestPurchase(rows: seq<Row>): (t: int)
    requires rows != []
    ensures forall r :: r in rows ==> r.purchaseTime <= t
    ensures exists r :: r in rows && r.purchaseTime == t
  {
    if |rows| == 1 then rows[0].purchaseTime
    else
      assert rows == [rows[0]] + rows[1..];
      var rest := LatestPurchase(rows[1..]);
      if rows[0].purchaseTime >= rest then rows[0].purchaseTime else rest
  }

  predicate HasCustomer(rows: seq<Row>, c: string)
  {
    exists r :: r in rows && r.customerUniqueId == c
  }

  /** The latest purchase of one customer. */
  function LastPurchaseOf(rows: seq<Row>, c: string): (t: int)
    requires HasCustomer(rows, c)
    ensures t <= LatestPurchase(rows)
    ensures forall r :: r in rows && r.customerUniqueId == c ==> r.purchaseTime <= t
    ensures exists r :: r in rows && r.customerUniqueId == c && r.purchaseTime == t
  {
    var own := Keep(rows, (r: Row) => r.customerUniqueId == c);
    assert own != [] by {
      var r :| r in rows && r.customerUniqueId == c;
      assert r in own;
    }
    LatestPurchase(own)
  }

  /** Whole days (`Timedelta.days`, rounded down) from the reference instant,
      one day after the table's latest purchase, back to the customer's own
      latest purchase. */
  function Recency(rows: seq<Row>, c: string): (days: int)
    requires HasCustomer(rows, c)
    ensures days >= 1
    ensures var elapsed := LatestPurchase(rows) + SECONDS_PER_DAY - LastPurchaseOf(rows, c);
      SECONDS_PER_DAY * days <= elapsed < SECONDS_PER_DAY * (days + 1)
  {
    (LatestPurchase(rows) + SECONDS_PER_DAY - LastPurchaseOf(rows, c)) / SECONDS_PER_DAY
  }

  /** The grouped row of one customer. */
  function AggregateCustomer(rows: seq<Row>, c: string): (a: CustomerAggregate)
    requires HasCustomer(rows, c)
    ensures a.customerId == c
    ensures a.frequency >= 1
    ensures a.recency >= 1
    ensures a.recency == 1 <==> LatestPurchase(rows) - LastPurchaseOf(rows, c) < SECONDS_PER_DAY
  {
    OrdersOfPresent(rows, ByCustomer, c);
    CustomerAggregate(c, Recency(rows, c), |OrdersOf(rows, ByCustomer, c)|, PaymentsOf(rows, ByCustomer, c))
  }

  function AggregateAll(rows: seq<Row>, keys: seq<string>): (table: seq<CustomerAggregate>)
    requires forall i :: 0 <= i < |keys| ==> HasCustomer(rows, keys[i])
    ensures |table| == |keys|
    ensures forall i :: 0 <= i < |keys| ==> table[i] == AggregateCustomer(rows, keys[i])
  {
    seq(|keys|, i requires 0 <= i < |keys| => AggregateCustomer(rows, keys[i]))
  }

  /** `groupby('customer_unique_id').agg(...)`: one record per distinct
      customer, in ascending customer order. */
  function Aggregate(rows: seq<Row>): (table: seq<CustomerAggregate>)
    ensures |table| == |KeySet(rows, ByCustomer)|
    ensures forall c :: HasCustomer(rows, c) <==> exists i :: 0 <= i < |table| && table[i].customerId == c
    ensures forall i :: 0 <= i < |table| ==>
      HasCustomer(rows, table[i].customerId) && table[i] == AggregateCustomer(rows, table[i].customerId)
  {
    var keys := KeysOf(rows, ByCustomer);
    assert forall k :: k in keys <==> HasCustomer(rows, k);
    AggregatedCustomers(rows, keys);
    AggregateAll(rows, keys)
  }

  /** Each listed customer has a record, at its own position. */
  lemma AggregatedCustomers(rows: seq<Row>, keys: seq<string>)
    requires forall i :: 0 <= i < |keys| ==> HasCustomer(rows, keys[i])
    ensures forall c :: c in keys <==> exists i :: 0 <= i < |AggregateAll(rows, keys)| && AggregateAll(rows, keys)[i].customerId == c
  {
    var table := AggregateAll(rows, keys);
    forall c | c in keys
      ensures exists i :: 0 <= i < |table| && table[i].customerId == c
    {
      var i :| 0 <= i < |keys| && keys[i] == c;
      assert table[i].customerId == c;
    }
  }

  /** `groupby` sorts its keys: the records come in ascending customer order. */
  lemma AggregateSorted(rows: seq<Row>)
    ensures forall i, j :: 0 <= i < j < |Aggregate(rows)| ==>
      LexLess(Aggregate(rows)[i].customerId, Aggregate(rows)[j].customerId)
  {
    var keys := KeysOf(rows, ByCustomer);
    assert forall k :: k in keys <==> HasCustomer(rows, k);
    assert Aggregate(rows) == AggregateAll(rows, keys);
  }

  /** Sum of the monetary column. */
  function MonetarySum(table: seq<CustomerAggregate>): int
  {
    if table == [] then 0 else table[0].monetary + MonetarySum(table[1..])
  }

  lemma {:induction false} MonetarySumOverKeys(rows: seq<Row>, keys: seq<string>)
    requires forall i :: 0 <= i < |keys| ==> HasCustomer(rows, keys[i])
    ensures MonetarySum(AggregateAll(rows, keys)) == PaymentsOverKeys(rows, ByCustomer, keys)
  {
    if keys != [] {
      var table := AggregateAll(rows, keys);
      assert table[1..] == AggregateAll(rows, keys[1..]);
      MonetarySumOverKeys(rows, keys[1..]);
    }
  }

  /** Grouping by customer neither loses nor invents money: the monetary
      column adds up to the table's total payment. */
  lemma MonetaryTotal(rows: seq<Row>)
    ensures MonetarySum(Aggregate(rows)) == TotalPayment(rows)
  {
    var keys := KeysOf(rows, ByCustomer);
    assert forall k :: k in keys <==> HasCustomer(rows, k);
    forall i | 0 <= i < |keys|
      ensures HasCustomer(rows, keys[i])
    {
      assert keys[i] in keys;
    }
    StrictlySortedDistinct(keys);
    MonetarySumOverKeys(rows, keys);
    PaymentsPartition(rows, ByCustomer, keys);
  }

  /** With non-negative payments every monetary value is non-negative. */
  lemma MonetaryNonNegative(rows: seq<Row>, i: int)
    requires forall r :: r in rows ==> r.totalPayment >= 0
    requires 0 <= i < |Aggregate(rows)|
    ensures Aggregate(rows)[i].monetary >= 0
  {
    PaymentsOfNonNegative(rows, ByCustomer, Aggregate(rows)[i].customerId);
  }

  /** A customer whose last purchase is later never has a larger recency. */
  lemma RecencyOrder(rows: seq<Row>, c: string, d: string)
    requires HasCustomer(rows, c) && HasCustomer(rows, d)
    requires LastPurchaseOf(rows, c) <= LastPurchaseOf(rows, d)
    ensures Recency(rows, d) <= Recency(rows, c)
  {
  }

  // ----- Scoring (lines 275-283) -----

  function Recencies(table: seq<CustomerAggregate>): (v: seq<int>)
    ensures |v| == |table| && forall i :: 0 <= i < |table| ==> v[i] == table[i].recency
  {
    seq(|table|, i requires 0 <= i < |table| => table[i].recency)
  }

  function Frequencies(table: seq<CustomerAggregate>): (v: seq<int>)
    ensures |v| == |table| && forall i :: 0 <= i < |table| ==> v[i] == table[i].frequency
  {
    seq(|table|, i requires 0 <= i < |table| => table[i].frequency)
  }

  function Monetaries(table: seq<CustomerAggregate>): (v: seq<int>)
    ensures |v| == |table| && forall i :: 0 <= i < |table| ==> v[i] == table[i].monetary
  {
    seq(|table|, i requires 0 <= i < |table| => table[i].monetary)
  }

  /** Recency labels run backwards: the most recent fifth scores 5. */
  const RECENCY_LABELS: seq<int> := [5, 4, 3, 2, 1]
  const SCORE_LABELS: seq<int> := [1, 2, 3, 4, 5]

  /** One row of the scored table. */
  datatype CustomerRfm = CustomerRfm(
    customerId: string,
    recency: int,
    frequency: nat,
    monetary: int,
    rScore: int,
    fScore: int,
    mScore: int,
    rfmScore: real,
    segment: Segment)

  /** What a scored row keeps of its grouped row, and what it adds. */
  predicate ScoredFrom(a: CustomerAggregate, c: CustomerRfm)
  {
    && c.customerId == a.customerId
    && c.recency == a.recency
    && c.frequency == a.frequency
    && c.monetary == a.monetary
    && InScoreCube(c.rScore, c.fScore, c.mScore)
    && c.rfmScore == (c.rScore + c.fScore + c.mScore) as real / 3.0
    && 1.0 <= c.rfmScore <= 5.0
    && c.segment == RfmSegment(c.rScore, c.fScore, c.mScore)
  }

  function Score(a: CustomerAggregate, r: int, f: int, m: int): (c: CustomerRfm)
    requires InScoreCube(r, f, m)
    ensures ScoredFrom(a, c)
  {
    CustomerRfm(a.customerId, a.recency, a.frequency, a.monetary, r, f, m,
                (r + f + m) as real / 3.0, RfmSegment(r, f, m))
  }

  /** Puts the three score columns beside the grouped table. */
  function Assemble(table: seq<CustomerAggregate>, rScores: seq<int>, fScores: seq<int>, mScores: seq<int>)
    : (scored: seq<CustomerRfm>)
    requires |rScores| == |fScores| == |mScores| == |table|
    requires forall i :: 0 <= i < |table| ==> InScoreCube(rScores[i], fScores[i], mScores[i])
    ensures |scored| == |table|
    ensures forall i :: 0 <= i < |table| ==> ScoredFrom(table[i], scored[i])
    ensures forall i :: 0 <= i < |table| ==>
      scored[i].rScore == rScores[i] && scored[i].fScore == fScores[i] && scored[i].mScore == mScores[i]
  {
    seq(|table|, i requires 0 <= i < |table| => Score(table[i], rScores[i], fScores[i], mScores[i]))
  }

  /** The label each list gives bin b. */
  lemma LabelOfBin(b: int)
    requires 1 <= b <= BINS
    ensures RECENCY_LABELS[b - 1] == 6 - b
    ensures SCORE_LABELS[b - 1] == b
  {
  }

  /** `r_score`: the recency bins, labelled 5 down to 1. */
  function RecencyScores(recencies: seq<int>): (scores: Result<seq<int>>)
    ensures scores.Ok? <==> |recencies| >= 1 && AllDistinct(Edges(recencies))
    ensures scores.Ok? ==> |scores.value| == |recencies|
    ensures scores.Ok? ==> forall i :: 0 <= i < |recencies| ==>
      scores.value[i] == 6 - Bin(Edges(recencies), recencies[i])
  {
    var r := QCut(recencies, RECENCY_LABELS);
    if r.Err? then r
    else
      assert forall i :: 0 <= i < |recencies| ==> r.value[i] == 6 - Bin(Edges(recencies), recencies[i]) by {
        forall i | 0 <= i < |recencies| ensures r.value[i] == 6 - Bin(Edges(recencies), recencies[i]) {
          LabelOfBin(Bin(Edges(recencies), recencies[i]));
        }
      }
      r
  }

  /** `f_score`: the bins of the first-occurrence ranks of the frequencies;
      it fails exactly when there is only one customer. */
  function FrequencyScores(frequencies: seq<int>): (scores: Result<seq<int>>)
    ensures scores.Ok? <==> |frequencies| >= 2
    ensures scores.Ok? ==> |scores.value| == |frequencies|
    ensures scores.Ok? ==> forall i :: 0 <= i < |frequencies| ==>
      scores.value[i] == Bin(Edges(RankFirst(frequencies)), RankFirst(frequencies)[i])
  {
    var ranks := RankFirst(frequencies);
    var f := QCut(ranks, SCORE_LABELS);
    assert f.Ok? <==> |frequencies| >= 2 by {
      if |frequencies| >= 1 {
        RankEdgesDistinct(frequencies);
      }
    }
    if f.Err? then f
    else
      assert forall i :: 0 <= i < |ranks| ==> f.value[i] == Bin(Edges(ranks), ranks[i]) by {
        forall i | 0 <= i < |ranks| ensures f.value[i] == Bin(Edges(ranks), ranks[i]) {
          LabelOfBin(Bin(Edges(ranks), ranks[i]));
        }
      }
      f
  }

  /** `m_score`: the monetary bins, labelled 1 to 5. */
  function MonetaryScores(monetaries: seq<int>): (scores: Result<seq<int>>)
    ensures scores.Ok? <==> |monetaries| >= 1 && AllDistinct(Edges(monetaries))
    ensures scores.Ok? ==> |scores.value| == |monetaries|
    ensures scores.Ok? ==> forall i :: 0 <= i < |monetaries| ==>
      scores.value[i] == Bin(Edges(monetaries), monetaries[i])
  {
    var m := QCut(monetaries, SCORE_LABELS);
    if m.Err? then m
    else
      assert forall i :: 0 <= i < |monetaries| ==> m.value[i] == Bin(Edges(monetaries), monetaries[i]) by {
        forall i | 0 <= i < |monetaries| ensures m.value[i] == Bin(Edges(monetaries), monetaries[i]) {
          LabelOfBin(Bin(Edges(monetaries), monetaries[i]));
        }
      }
      m
  }

  /** The three `qcut` calls and the mean and segment columns, over the
      grouped table; it fails exactly when a `qcut` meets repeated edges. */
  function ScoreTable(table: seq<CustomerAggregate>): (result: Result<seq<CustomerRfm>>)
    ensures result.Ok? <==> RecencyScores(Recencies(table)).Ok? && FrequencyScores(Frequencies(table)).Ok? && MonetaryScores(Monetaries(table)).Ok?
    ensures result.Ok? ==> |result.value| == |table|
    ensures result.Ok? ==> forall i :: 0 <= i < |table| ==>
      && ScoredFrom(table[i], result.value[i])
      && result.value[i].rScore == RecencyScores(Recencies(table)).value[i]
      && result.value[i].fScore == FrequencyScores(Frequencies(table)).value[i]
      && result.value[i].mScore == MonetaryScores(Monetaries(table)).value[i]
  {
    var r := RecencyScores(Recencies(table));
    var f := FrequencyScores(Frequencies(table));
    var m := MonetaryScores(Monetaries(table));
    if r.Err? || f.Err? || m.Err? then Err(BinEdgesNotUnique)
    else
      assert forall i :: 0 <= i < |table| ==> InScoreCube(r.value[i], f.value[i], m.value[i]) by {
        forall i | 0 <= i < |table| ensures InScoreCube(r.value[i], f.value[i], m.value[i]) {
          var ranks := RankFirst(Frequencies(table));
          assert r.value[i] == 6 - Bin(Edges(Recencies(table)), Recencies(table)[i]);
          assert f.value[i] == Bin(Edges(ranks), ranks[i]);
          assert m.value[i] == Bin(Edges(Monetaries(table)), Monetaries(table)[i]);
        }
      }
      Ok(Assemble(table, r.value, f.value, m.value))
  }

  /** `rfm_df` fails exactly when there are fewer than two customers or the
      recency or monetary quintile edges repeat. */
  lemma ScoreTableFails(table: seq<CustomerAggregate>)
    ensures ScoreTable(table).Ok? <==>
      |table| >= 2 && AllDistinct(Edges(Recencies(table))) && AllDistinct(Edges(Monetaries(table)))
  {
  }

  /** Lines 264-306 together: group the filtered rows by customer, then
      score; one scored row per distinct customer. */
  function RfmTable(rows: seq<Row>): (result: Result<seq<CustomerRfm>>)
    ensures result.Ok? ==> |result.value| == |KeySet(rows, ByCustomer)|
  {
    ScoreTable(Aggregate(rows))
  }

  /** A table with at most one customer cannot be scored. */
  lemma OneCustomerFails(rows: seq<Row>, c: string)
    requires forall r :: r in rows ==> r.customerUniqueId == c
    ensures RfmTable(rows).Err?
  {
    var ids := KeySet(rows, ByCustomer);
    assert ids == {} || ids == {c};
    assert |Aggregate(rows)| <= 1;
  }

  /** Each score is its customer's bin on that axis, the recency bin counted
      from the top. */
  lemma ScoresAreBins(table: seq<CustomerAggregate>, i: int)
    requires ScoreTable(table).Ok? && 0 <= i < |table|
    ensures var scored := ScoreTable(table).value[i];
      && scored.rScore == 6 - Bin(Edges(Recencies(table)), Recencies(table)[i])
      && scored.fScore == Bin(Edges(RankFirst(Frequencies(table))), RankFirst(Frequencies(table))[i])
      && scored.mScore == Bin(Edges(Monetaries(table)), Monetaries(table)[i])
  {
  }

  /** A larger recency never scores higher on r. */
  lemma RScoreOrder(table: seq<CustomerAggregate>, i: int, j: int)
    requires ScoreTable(table).Ok? && 0 <= i < |table| && 0 <= j < |table|
    requires table[i].recency <= table[j].recency
    ensures ScoreTable(table).value[i].rScore >= ScoreTable(table).value[j].rScore
  {
    ScoresAreBins(table, i);
    ScoresAreBins(table, j);
    BinMonotone(Edges(Recencies(table)), Recencies(table)[i], Recencies(table)[j]);
  }

  /** A larger monetary value never scores lower on m. */
  lemma MScoreOrder(table: seq<CustomerAggregate>, i: int, j: int)
    requires ScoreTable(table).Ok? && 0 <= i < |table| && 0 <= j < |table|
    requires table[i].monetary <= table[j].monetary
    ensures ScoreTable(table).value[i].mScore <= ScoreTable(table).value[j].mScore
  {
    ScoresAreBins(table, i);
    ScoresAreBins(table, j);
    BinMonotone(Edges(Monetaries(table)), Monetaries(table)[i], Monetaries(table)[j]);
  }

  /** f_score is max(1, ceil(5(x-1)/(n-1))) of the customer's rank x among n. */
  lemma FScoreOfRank(table: seq<CustomerAggregate>, i: int)
    requires ScoreTable(table).Ok? && 0 <= i < |table|
    ensures ScoreTable(table).value[i].fScore == RankBin(RankOf(Frequencies(table), i), |table|)
  {
    ScoresAreBins(table, i);
    BinOfRank(Frequencies(table), i);
  }

  /** A higher frequency never scores lower on f; between equal frequencies
      the customer earlier in the table never scores higher. */
  lemma FScoreOrder(table: seq<CustomerAggregate>, i: int, j: int)
    requires ScoreTable(table).Ok? && 0 <= i < |table| && 0 <= j < |table|
    requires table[i].frequency < table[j].frequency || (table[i].frequency == table[j].frequency && i < j)
    ensures ScoreTable(table).value[i].fScore <= ScoreTable(table).value[j].fScore
  {
    var freq := Frequencies(table);
    ScoresAreBins(table, i);
    ScoresAreBins(table, j);
    RankOrder(freq, i, j);
    BinMonotone(Edges(RankFirst(freq)), RankFirst(freq)[i], RankFirst(freq)[j]);
  }
}
