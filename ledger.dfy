/**
 * The transaction record that `/api/parse` returns and the chart engine reads:
 * `{ vendor, amount, category, type, date }`. Amounts are in paise (hundredths
 * of a rupee); the date is the raw statement line the parser attached.
 */
module Ledger {

  /** `type: "Debit"` or `type: "Credit"` */
  datatype Kind = Debit | Credit

  datatype Transaction = Transaction(vendor: string, amount: nat, category: string, kind: Kind, date: string)
}
