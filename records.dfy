/** The two persisted record kinds, the candidate a client submits, and the
    profit-rate value they share. */
module Records {
  import opened Common

  /** The `type` column: `'USD 사기'` (buying dollars) or `'USD 팔기'`
      (selling them). The table's CHECK constraint admits only these two. */
  datatype TxType = Buy | Sell

  /** The `source` column: `'photo'` or `'manual'`, again fixed by a CHECK
      constraint. */
  datatype Source = Photo | Manual

  /** One open buy or sell (a row of the `investments` table). Dates and
      timestamps are the text the table stores. */
  datatype InvestmentRecord = InvestmentRecord(
    id: string,
    date: string,
    kind: TxType,
    foreignAmount: real,
    exchangeRate: real,
    wonAmount: real,
    source: Source,
    createdAt: string)

  /** The value of `(profit / base) * 100`. JavaScript division by a zero
      base yields NaN or an infinity rather than failing; both are
      `NonFinite` here. */
  datatype Ratio = Finite(value: real) | NonFinite

  /** One closed (buy, sell) pairing (a row of the `profits` table).
      `createdAt` is absent on a record that was only computed and never
      stored. */
  datatype ProfitRecord = ProfitRecord(
    id: string,
    buyDate: string,
    sellDate: string,
    buyRecordId: string,
    sellRecordId: string,
    foreignAmount: real,
    buyRate: real,
    sellRate: real,
    buyWonAmount: real,
    sellWonAmount: real,
    profit: real,
    profitRate: Ratio,
    createdAt: Option<string>)

  /** The fields of one submitted record: an investment record without its
      id, source and timestamps, which the ingestion route supplies. */
  datatype Candidate = Candidate(
    date: string,
    kind: TxType,
    foreignAmount: real,
    exchangeRate: real,
    wonAmount: real)

  /** `profit` as a percentage of `base`. */
  function Percent(profit: real, base: real): (r: Ratio)
    ensures r.Finite? <==> base != 0.0
    ensures r.Finite? ==> r.value * base == profit * 100.0
  {
    if base == 0.0 then NonFinite else Finite(profit / base * 100.0)
  }

  /** With a positive base, the percentage has the sign of the profit. */
  lemma PercentSign(profit: real, base: real)
    requires base > 0.0
    ensures Percent(profit, base).Finite?
    ensures Percent(profit, base).value > 0.0 <==> profit > 0.0
    ensures Percent(profit, base).value == 0.0 <==> profit == 0.0
    ensures Percent(profit, base).value < 0.0 <==> profit < 0.0
  {
    var v := Percent(profit, base).value;
    assert v * base == profit * 100.0;
    if v > 0.0 { assert v * base > 0.0; }
    if v < 0.0 { assert v * base < 0.0; }
  }
}
