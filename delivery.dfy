/** The delay buckets of the delivery-performance page
    (dashboard/dashboard.py, lines 214-226). */
module Delivery {
  import opened Orders

  /** The four buckets, in the order the chart lists them. */
  datatype DelayCategory = OnTimeOrEarly | Late1To7Days | Late8To14Days | LateOver14Days

  /** Position of a bucket in the chart's order, 0 to 3. */
  function Position(c: DelayCategory): nat
  {
    match c
    case OnTimeOrEarly => 0
    case Late1To7Days => 1
    case Late8To14Days => 2
    case LateOver14Days => 3
  }

  /** How many of the thresholds 0, 7 and 14 days a delay lies beyond. */
  function ThresholdsPassed(days: int): nat
  {
    (if days > 0 then 1 else 0) + (if days > 7 then 1 else 0) + (if days > 14 then 1 else 0)
  }

  /** `categorize_delay`: the bucket of a delivery delay in days. */
  function CategorizeDelay(days: int): (c: DelayCategory)
    ensures c == OnTimeOrEarly <==> days <= 0
    ensures c == Late1To7Days <==> 0 < days <= 7
    ensures c == Late8To14Days <==> 7 < days <= 14
    ensures c == LateOver14Days <==> 14 < days
    ensures Position(c) == ThresholdsPassed(days)
  {
    if days <= 0 then OnTimeOrEarly
    else if days <= 7 then Late1To7Days
    else if days <= 14 then Late8To14Days
    else LateOver14Days
  }

  /** A longer delay never falls in an earlier bucket. */
  lemma CategorizeDelayMonotone(shorter: int, longer: int)
    requires shorter <= longer
    ensures Position(CategorizeDelay(shorter)) <= Position(CategorizeDelay(longer))
  {
  }

  /** `categorize_delay` applied to a cell that may be missing: every
      comparison with NaN is false, so a missing delay falls through to the
      last bucket. */
  function CategorizeCell(delay: Delay): (c: DelayCategory)
    ensures delay.Missing? ==> c == LateOver14Days
    ensures delay.Days? ==> Position(c) == ThresholdsPassed(delay.days)
  {
    match delay
    case Days(days) => CategorizeDelay(days)
    case Missing => LateOver14Days
  }

  /** The `delay_category` column: one bucket per row, aligned with the rows. */
  function DelayColumn(rows: seq<Row>): (column: seq<DelayCategory>)
    ensures |column| == |rows|
    ensures forall i :: 0 <= i < |rows| ==>
      Position(column[i]) == match rows[i].deliveryDelayDays
        case Days(days) => ThresholdsPassed(days)
        case Missing => 3
  {
    seq(|rows|, i requires 0 <= i < |rows| => CategorizeCell(rows[i].deliveryDelayDays))
  }
}
