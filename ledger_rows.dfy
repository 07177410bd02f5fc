/**
 * The daily ledger as the read-side services see it: each field of a row
 * is read on its own, so a missing number or status is `None`.
 */
module LedgerRows {
  import opened Wrappers
  import Settlement

  datatype LedgerRow = LedgerRow(date: string, code: string, sharesEnd: Option<real>, avgCostNavEnd: Option<real>,
                                 realizedPnlEnd: Option<real>, estimatedNavClose: Option<real>,
                                 officialNav: Option<real>, settleStatus: Option<string>)

  /** How a row the settlement ledger wrote reads back. */
  function View(it: Settlement.LedgerItem): LedgerRow {
    LedgerRow(it.date, it.code, Some(it.sharesEnd), Some(it.avgCostNavEnd), Some(it.realizedPnlEnd),
              Some(it.estimatedNavClose), it.officialNav, Some(it.settleStatus))
  }

  /** `str(it.get("settle_status", ""))`. */
  function StatusText(x: LedgerRow): string {
    x.settleStatus.GetOr("")
  }

  /** A number read with a default of 0, as `float(it.get(k, 0.0))` does. */
  function Num(v: Option<real>): real {
    v.GetOr(0.0)
  }
}
