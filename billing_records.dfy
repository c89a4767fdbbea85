/**
 * The record read from one line of the billing input file, and the derived
 * report row that pairs it with its computed total.
 */
module BillingRecords {

  /** Java's `int`: a 32-bit two's-complement integer. */
  type Int32 = x: int | -0x8000_0000 <= x < 0x8000_0000

  /**
   * One billing line: period, account, phone number and three usage measures.
   * The Java `float` usage is modelled as a `real` (IEEE rounding is abstracted).
   */
  datatype BillingData = BillingData(
    dataYear: Int32,
    dataMonth: Int32,
    accountId: Int32,
    phoneNumber: string,
    dataUsage: real,
    callDuration: Int32,
    smsCount: Int32)

  /** A report row: the unchanged input record together with its billing total. */
  datatype ReportingData = ReportingData(billingData: BillingData, billingTotal: real)
}
