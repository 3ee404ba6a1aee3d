/** Records exchanged by the QueryData function: the stored rows, the projection
    the query keeps, the ranked entries of the response, and the fixed table of
    company display names. */
module StockRecords {

  /** A row of the "stocksinfo" table. The partition key names the KPI, the row
      key is the company symbol; dates are ordered integers and prices are reals
      (the source only ever compares them). */
  datatype StockInfo = StockInfo(partition: string, symbol: string, date: int, price: real)

  /** What the query keeps of a selected row and the ranking reads: the row key
      (company symbol) and the price. */
  datatype Tick = Tick(symbol: string, price: real)

  /** One ranked entry of the response (KPIInfo). */
  datatype KpiInfo = KpiInfo(rank: int, symbol: string, name: string, value: real)

  /** The dictionary indexer throws when a symbol has no display name. */
  datatype LookupError = KeyNotFound(symbol: string)

  datatype Result<T> = Success(value: T) | Failure(error: LookupError)

  /** The response never holds more entries than this. */
  const MAX_ENTRIES: nat := 10

  /** Number of entries the ranking emits from n sorted records. */
  function TopCount(n: nat): (k: nat)
    ensures k <= n && k <= MAX_ENTRIES
    ensures k == n || k == MAX_ENTRIES
  {
    if n < MAX_ENTRIES then n else MAX_ENTRIES
  }

  /** The fixed symbol-to-name table of the service. */
  const COMPANIES: map<string, string> := map[
    "ctcm" := "CTC Media Inc",
    "dpm" := "DCP Midstream Partners LP",
    "dx" := "Dynex Capital Inc",
    "lit" := "Global X Funds",
    "npo" := "Enpro Industries Inc",
    "nymx" := "Nymox Pharmaceutical Corp",
    "pmm" := "Putnam Managed Muni Income TR",
    "sbra" := "Sabra Healthcare Reit Inc",
    "smrt" := "Stein Mart Inc",
    "ttt" := "Proshares Trust"
  ]
}
