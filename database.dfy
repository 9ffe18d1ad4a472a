/** The exchange's database: one table per record kind, each kept in insertion order. */
module Database {
  import opened Models
  import opened Holdings

  class Db {
    var users: seq<User>
    var bots: seq<Bot>
    var trades: seq<Trade>
    var portfolio: seq<Holding>
    /** Seeded from outside; no handler modelled here writes a market row. */
    var markets: seq<Market>
    /** Bot ids handed to the background-task runner, in the order they were scheduled. */
    var scheduled: seq<nat>

    /** Ids are numbered in insertion order; usernames and emails are unique (the unique columns of the user
        table); there is at most one portfolio row per (user, asset). */
    ghost predicate Valid()
      reads this
    {
      && DenseUserIds(users)
      && DistinctAccounts(users)
      && DenseBotIds(bots)
      && DenseTradeIds(trades)
      && UniqueKeys(portfolio)
    }

    /** An empty exchange over a given set of markets. */
    constructor (markets: seq<Market>)
      ensures Valid()
      ensures users == [] && bots == [] && trades == [] && portfolio == [] && scheduled == []
      ensures this.markets == markets
    {
      users, bots, trades, portfolio, scheduled := [], [], [], [], [];
      this.markets := markets;
    }
  }
}
