/**
 * The item processor of the report step: it prices one billing record and
 * drops it when the total stays below the spending threshold.
 */
module Processor {
  import opened Wrappers
  import opened BillingRecords

  /** The three per-unit rates of the pricing lookup, which is a parameter of the model. */
  datatype Pricing = Pricing(dataPricing: real, callPricing: real, smsPricing: real)

  /** The threshold used when the configuration does not set one. */
  const DefaultSpendingThreshold: real := 150.0

  /** The threshold in force: the configured value, else the default of 150. */
  function SpendingThreshold(configured: Option<real>): (t: real)
    ensures configured.None? ==> t == 150.0
    ensures configured.Some? ==> t == configured.value
  {
    match configured
    case None => DefaultSpendingThreshold
    case Some(v) => v
  }

  /** The weighted sum of the three usage measures. */
  function BillingTotal(item: BillingData, pricing: Pricing): real
  {
    item.dataUsage * pricing.dataPricing
      + item.callDuration as real * pricing.callPricing
      + item.smsCount as real * pricing.smsPricing
  }

  /**
   * Prices `item`; `None` (Java's `null`) means the record is filtered out.
   * The comparison is strict, so a total equal to the threshold is kept.
   */
  function Process(item: BillingData, pricing: Pricing, spendingThreshold: real): (r: Option<ReportingData>)
    ensures r.None? <==> BillingTotal(item, pricing) < spendingThreshold
    ensures r.Some? ==> r.value.billingData == item
    ensures r.Some? ==> r.value.billingTotal == BillingTotal(item, pricing) >= spendingThreshold
  {
    var billingTotal := BillingTotal(item, pricing);
    if billingTotal < spendingThreshold then None
    else Some(ReportingData(item, billingTotal))
  }

  /** A record whose total equals the threshold exactly is kept. */
  lemma BoundaryTotalIsKept(item: BillingData, pricing: Pricing)
    ensures Process(item, pricing, BillingTotal(item, pricing))
         == Some(ReportingData(item, BillingTotal(item, pricing)))
  {
  }

  /**
   * The boundary case with rates 1.0, 0.5 and 0.25, threshold 150 and a data
   * usage of 150: the total is 150 and the record is kept.
   */
  lemma BoundaryExampleIsKept(item: BillingData)
    requires item.dataUsage == 150.0 && item.callDuration == 0 && item.smsCount == 0
    ensures Process(item, Pricing(1.0, 0.5, 0.25), 150.0) == Some(ReportingData(item, 150.0))
  {
  }

  /** Lowering the threshold never filters a record that was kept, and the row is the same. */
  lemma LoweringThresholdKeeps(item: BillingData, pricing: Pricing, higher: real, lower: real)
    requires lower <= higher
    requires Process(item, pricing, higher).Some?
    ensures Process(item, pricing, lower) == Process(item, pricing, higher)
  {
  }

  /** The rows the processor yields for `items`, in input order; filtered records yield none. */
  function Report(items: seq<BillingData>, pricing: Pricing, spendingThreshold: real): seq<ReportingData>
  {
    if items == [] then []
    else
      var rest := Report(items[1..], pricing, spendingThreshold);
      match Process(items[0], pricing, spendingThreshold)
      case None => rest
      case Some(row) => [row] + rest
  }

  /** Reference selection: the records whose total reaches the threshold, in input order. */
  function Payable(items: seq<BillingData>, pricing: Pricing, spendingThreshold: real): seq<BillingData>
  {
    if items == [] then []
    else if BillingTotal(items[0], pricing) >= spendingThreshold
    then [items[0]] + Payable(items[1..], pricing, spendingThreshold)
    else Payable(items[1..], pricing, spendingThreshold)
  }

  /**
   * The report holds exactly one row per payable record, in input order, each
   * pairing the unchanged record with its total.
   */
  lemma {:induction false} ReportIsPayableWithTotals(items: seq<BillingData>, pricing: Pricing, spendingThreshold: real)
    ensures |Report(items, pricing, spendingThreshold)| == |Payable(items, pricing, spendingThreshold)|
    ensures forall i :: 0 <= i < |Report(items, pricing, spendingThreshold)| ==>
      Report(items, pricing, spendingThreshold)[i]
        == ReportingData(Payable(items, pricing, spendingThreshold)[i],
                         BillingTotal(Payable(items, pricing, spendingThreshold)[i], pricing))
  {
    if items != [] {
      ReportIsPayableWithTotals(items[1..], pricing, spendingThreshold);
    }
  }

  /** Every payable record comes from the input and reaches the threshold. */
  lemma {:induction false} PayableAreInputsAtThreshold(items: seq<BillingData>, pricing: Pricing, spendingThreshold: real)
    ensures forall x :: x in Payable(items, pricing, spendingThreshold) ==>
      x in items && BillingTotal(x, pricing) >= spendingThreshold
    ensures forall x :: x in items && BillingTotal(x, pricing) >= spendingThreshold ==>
      x in Payable(items, pricing, spendingThreshold)
  {
    if items != [] {
      PayableAreInputsAtThreshold(items[1..], pricing, spendingThreshold);
      assert items == [items[0]] + items[1..];
    }
  }

  /** The rows of `rows` whose total reaches `threshold`, in order. */
  function RowsAtLeast(rows: seq<ReportingData>, threshold: real): seq<ReportingData>
  {
    if rows == [] then []
    else if rows[0].billingTotal >= threshold then [rows[0]] + RowsAtLeast(rows[1..], threshold)
    else RowsAtLeast(rows[1..], threshold)
  }

  /**
   * Raising the threshold only removes rows: the report at the higher threshold
   * is the report at the lower one, keeping the rows whose total reaches the
   * higher threshold, in the same order; so it is never longer.
   */
  lemma {:induction false} LoweringThresholdGrowsReport(items: seq<BillingData>, pricing: Pricing, higher: real, lower: real)
    requires lower <= higher
    ensures Report(items, pricing, higher) == RowsAtLeast(Report(items, pricing, lower), higher)
    ensures |Report(items, pricing, higher)| <= |Report(items, pricing, lower)|
  {
    if items != [] {
      LoweringThresholdGrowsReport(items[1..], pricing, higher, lower);
      var lowRows := Report(items, pricing, lower);
      match Process(items[0], pricing, lower)
      case None =>
        assert lowRows == Report(items[1..], pricing, lower);
      case Some(row) =>
        assert lowRows == [row] + Report(items[1..], pricing, lower);
        assert lowRows[0] == row && lowRows[1..] == Report(items[1..], pricing, lower);
    }
  }
}
