/** The `portfolioData` record the ledger computes and the achievement catalog reads. */
module Portfolio {
  import opened JsValues

  /** `{ totalBtc, totalInvested, currentValue, unrealizedPnl, totalTransactions,
      longestStreak, maxDrawdown }`. The percentage is unguarded, so it is any number,
      NaN included. */
  datatype PortfolioData = PortfolioData(
    totalBtc: real,
    totalInvested: real,
    currentValue: JsNum,
    unrealizedPnl: JsNum,
    totalTransactions: nat,
    longestStreak: int,
    maxDrawdown: real)
}
