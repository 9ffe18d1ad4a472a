/** The rows of the exchange's tables. Timestamps are not kept: a row's creation time is its position in
    its table, and a trade's execution time is only recorded as set or unset. */
module Models {
  import opened Common

  datatype User = User(id: nat, username: string, email: string, hashedPassword: string, isActive: bool)

  /** No two registered users share a username, and no two share an email. */
  ghost predicate DistinctAccounts(users: seq<User>) {
    forall i, j :: 0 <= i < j < |users| ==>
      users[i].username != users[j].username && users[i].email != users[j].email
  }

  /** The statuses a bot row is ever given. */
  datatype BotStatus = Stopped | Running | Errored

  function BotStatusName(s: BotStatus): string {
    match s
    case Stopped => "stopped"
    case Running => "running"
    case Errored => "error"
  }

  /** The "amount" key of a bot configuration: absent, a value `float()` accepts, or one it rejects. */
  datatype AmountField = NoAmount | Amount(value: real) | BadAmount

  /** A bot configuration after JSON decoding: a JSON object, read only for the keys "symbol", "side" and
      "amount", or some other JSON value (an array, a string, a number ...). */
  datatype Config =
    | ObjectConfig(symbol: Option<string>, side: Option<string>, amount: AmountField)
    | NonObject

  /** The configuration text a client sends: not JSON at all, or a JSON document. */
  datatype ConfigText = Malformed | WellFormed(config: Config)

  datatype Bot = Bot(id: nat, name: string, strategy: string, config: Config, status: BotStatus, ownerId: nat)

  /** Trade statuses; `Canceled` is a legal value that no handler ever sets. */
  datatype TradeStatus = Open | Filled | Canceled

  function TradeStatusName(s: TradeStatus): string {
    match s
    case Open => "open"
    case Filled => "filled"
    case Canceled => "canceled"
  }

  datatype Trade = Trade(
    id: nat,
    symbol: string,
    side: string,
    orderType: string,
    amount: real,
    price: real,
    status: TradeStatus,
    executed: bool,        // executed_at is set
    userId: nat,
    botId: Option<nat>)

  function TradeId(t: Trade): int { t.id }

  /** A portfolio row: the balance a user holds of one asset (it may be negative). */
  datatype Holding = Holding(userId: nat, asset: string, balance: real)

  datatype Market = Market(symbol: string, baseAsset: string, quoteAsset: string, price: real, volume24h: real, change24h: real)

  /** Rows are numbered 1, 2, ... in the order they were inserted (no handler deletes a row). */
  ghost predicate DenseUserIds(users: seq<User>) { forall i :: 0 <= i < |users| ==> users[i].id == i + 1 }
  ghost predicate DenseBotIds(bots: seq<Bot>) { forall i :: 0 <= i < |bots| ==> bots[i].id == i + 1 }
  ghost predicate DenseTradeIds(trades: seq<Trade>) { forall i :: 0 <= i < |trades| ==> trades[i].id == i + 1 }

  /** The market a symbol names, if any: `query(Market).filter(Market.symbol == symbol).first()`. */
  function FindMarket(markets: seq<Market>, symbol: string): (r: Option<nat>)
    ensures r.Some? ==> r.value < |markets| && markets[r.value].symbol == symbol
    ensures r.None? <==> forall m :: m in markets ==> m.symbol != symbol
  {
    FindFirst(markets, (m: Market) => m.symbol == symbol)
  }
}
