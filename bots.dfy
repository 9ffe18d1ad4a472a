/** The bot router: bot rows and their status machine (stopped, running, error), the one-shot background
    task that places a single simulated trade, and the bot's trade history. */
module Bots {
  import opened Common
  import opened Models
  import opened Database

  const BotNotFoundDetail := "Bot not found"
  const InvalidConfigDetail := "Invalid JSON in config field"
  const DefaultSymbol := "BTC/USD"
  const DefaultSide := "buy"
  const DefaultAmount: real := 0.01

  /** The body of a start or stop response. */
  datatype BotAction = BotAction(success: bool, message: string, status: string)

  /** The bot a request names, if the caller owns it; a bot owned by someone else is not found. */
  function OwnedBot(bots: seq<Bot>, botId: nat, caller: nat): (r: Option<nat>)
    ensures r.Some? ==> r.value < |bots| && bots[r.value].id == botId && bots[r.value].ownerId == caller
    ensures r.None? <==> forall b :: b in bots ==> !(b.id == botId && b.ownerId == caller)
  {
    FindFirst(bots, (b: Bot) => b.id == botId && b.ownerId == caller)
  }

  /** The bot with a given id, whoever owns it (the background task does not check ownership). */
  function BotById(bots: seq<Bot>, botId: nat): (r: Option<nat>)
    ensures r.Some? ==> r.value < |bots| && bots[r.value].id == botId
    ensures r.None? <==> forall b :: b in bots ==> b.id != botId
  {
    FindFirst(bots, (b: Bot) => b.id == botId)
  }

  /** POST /bots: a configuration that is not JSON is refused and nothing changes; otherwise one bot is added,
      numbered after the last, owned by the caller, and stopped. */
  method CreateBot(db: Db, caller: nat, name: string, strategy: string, config: ConfigText) returns (r: Result<Bot>)
    requires db.Valid()
    modifies db
    ensures db.Valid()
    ensures db.users == old(db.users) && db.trades == old(db.trades) && db.portfolio == old(db.portfolio)
    ensures db.markets == old(db.markets) && db.scheduled == old(db.scheduled)
    ensures config.Malformed? ==> r == Err(BadRequest(InvalidConfigDetail)) && db.bots == old(db.bots)
    ensures config.WellFormed? ==>
      && r == Ok(Bot(|old(db.bots)| + 1, name, strategy, config.config, Stopped, caller))
      && db.bots == old(db.bots) + [r.value]
  {
    if config.Malformed? {
      return Err(BadRequest(InvalidConfigDetail));
    }
    var bot := Bot(|db.bots| + 1, name, strategy, config.config, Stopped, caller);
    db.bots := db.bots + [bot];
    r := Ok(bot);
  }

  /** GET /bots: exactly the caller's bots, in table order. */
  function GetBots(bots: seq<Bot>, caller: nat): (r: seq<Bot>)
    ensures forall i :: 0 <= i < |r| ==> r[i] in bots && r[i].ownerId == caller
    ensures forall i :: 0 <= i < |bots| && bots[i].ownerId == caller ==> bots[i] in r
  {
    Filter(bots, (b: Bot) => b.ownerId == caller)
  }

  /** GET /bots/{id}: found only when the bot exists and belongs to the caller. */
  function GetBot(bots: seq<Bot>, botId: nat, caller: nat): (r: Result<Bot>)
    ensures r.Err? <==> forall b :: b in bots ==> !(b.id == botId && b.ownerId == caller)
    ensures r.Err? ==> r.error == NotFound(BotNotFoundDetail)
    ensures r.Ok? ==> r.value in bots && r.value.id == botId && r.value.ownerId == caller
  {
    match OwnedBot(bots, botId, caller)
    case None => Err(NotFound(BotNotFoundDetail))
    case Some(i) => Ok(bots[i])
  }

  /** PUT /bots/{id}: ownership is checked before the configuration. Only name, strategy and configuration
      change; the status and every other row stay as they were. */
  method UpdateBot(db: Db, caller: nat, botId: nat, name: string, strategy: string, config: ConfigText)
    returns (r: Result<Bot>)
    requires db.Valid()
    modifies db
    ensures db.Valid()
    ensures db.users == old(db.users) && db.trades == old(db.trades) && db.portfolio == old(db.portfolio)
    ensures db.markets == old(db.markets) && db.scheduled == old(db.scheduled)
    ensures OwnedBot(old(db.bots), botId, caller).None? ==>
      r == Err(NotFound(BotNotFoundDetail)) && db.bots == old(db.bots)
    ensures OwnedBot(old(db.bots), botId, caller).Some? && config.Malformed? ==>
      r == Err(BadRequest(InvalidConfigDetail)) && db.bots == old(db.bots)
    ensures OwnedBot(old(db.bots), botId, caller).Some? && config.WellFormed? ==>
      var i := OwnedBot(old(db.bots), botId, caller).value;
      && db.bots == old(db.bots)[i := old(db.bots)[i].(name := name, strategy := strategy, config := config.config)]
      && r == Ok(db.bots[i])
      && db.bots[i].status == old(db.bots)[i].status
  {
    var found := OwnedBot(db.bots, botId, caller);
    if found.None? {
      return Err(NotFound(BotNotFoundDetail));
    }
    if config.Malformed? {
      return Err(BadRequest(InvalidConfigDetail));
    }
    var i := found.value;
    var bot := db.bots[i].(name := name, strategy := strategy, config := config.config);
    db.bots := db.bots[i := bot];
    r := Ok(bot);
  }

  /** The answer to a start request: a running bot is reported as a no-op with its status; any other
      status (stopped or error) is accepted and reported as "starting". */
  function StartDecision(status: BotStatus): (r: BotAction)
    ensures r.success <==> status != Running
    ensures !r.success ==> r.status == BotStatusName(status) && r.message == "Bot is already running"
    ensures r.success ==> r.status == "starting" && r.message == "Bot started successfully"
  {
    if status == Running then BotAction(false, "Bot is already running", BotStatusName(status))
    else BotAction(true, "Bot started successfully", "starting")
  }

  /** POST /bots/{id}/start: an accepted request schedules exactly one run of the background task and changes
      nothing else (not even the status, which the task itself sets); a refused one changes nothing. */
  method StartBot(db: Db, caller: nat, botId: nat) returns (r: Result<BotAction>)
    requires db.Valid()
    modifies db
    ensures db.users == old(db.users) && db.bots == old(db.bots) && db.trades == old(db.trades)
    ensures db.portfolio == old(db.portfolio) && db.markets == old(db.markets)
    ensures OwnedBot(db.bots, botId, caller).None? ==>
      r == Err(NotFound(BotNotFoundDetail)) && db.scheduled == old(db.scheduled)
    ensures OwnedBot(db.bots, botId, caller).Some? ==>
      var status := db.bots[OwnedBot(db.bots, botId, caller).value].status;
      && r == Ok(StartDecision(status))
      && db.scheduled == (if status == Running then old(db.scheduled) else old(db.scheduled) + [botId])
    ensures db.Valid()
  {
    var found := OwnedBot(db.bots, botId, caller);
    if found.None? {
      return Err(NotFound(BotNotFoundDetail));
    }
    var status := db.bots[found.value].status;
    if status != Running {
      db.scheduled := db.scheduled + [botId];
    }
    r := Ok(StartDecision(status));
  }

  /** POST /bots/{id}/stop: a stopped bot is reported as a no-op; from running or error the bot is set to
      stopped at once, whatever background task may still be pending. */
  method StopBot(db: Db, caller: nat, botId: nat) returns (r: Result<BotAction>)
    requires db.Valid()
    modifies db
    ensures db.Valid()
    ensures db.users == old(db.users) && db.trades == old(db.trades) && db.portfolio == old(db.portfolio)
    ensures db.markets == old(db.markets) && db.scheduled == old(db.scheduled)
    ensures OwnedBot(old(db.bots), botId, caller).None? ==>
      r == Err(NotFound(BotNotFoundDetail)) && db.bots == old(db.bots)
    ensures OwnedBot(old(db.bots), botId, caller).Some? ==>
      var i := OwnedBot(old(db.bots), botId, caller).value;
      if old(db.bots)[i].status == Stopped then
        r == Ok(BotAction(false, "Bot is already stopped", "stopped")) && db.bots == old(db.bots)
      else
        r == Ok(BotAction(true, "Bot stopped successfully", "stopped"))
        && db.bots == old(db.bots)[i := old(db.bots)[i].(status := Stopped)]
  {
    var found := OwnedBot(db.bots, botId, caller);
    if found.None? {
      return Err(NotFound(BotNotFoundDetail));
    }
    var i := found.value;
    if db.bots[i].status == Stopped {
      return Ok(BotAction(false, "Bot is already stopped", BotStatusName(db.bots[i].status)));
    }
    db.bots := db.bots[i := db.bots[i].(status := Stopped)];
    r := Ok(BotAction(true, "Bot stopped successfully", "stopped"));
  }

  /** The order a bot's configuration asks for. */
  datatype BotOrder = BotOrder(symbol: string, side: string, amount: real)

  /** Read the configuration the way the background task does: a configuration that is not a JSON object, or
      an amount `float()` rejects, raises (None); otherwise each key present is used and each key absent takes
      its default ("BTC/USD", "buy", 0.01). */
  function ResolveConfig(c: Config): (r: Option<BotOrder>)
    ensures r.None? <==> c.NonObject? || c.amount.BadAmount?
    ensures r.Some? ==> r.value.symbol == (if c.symbol.Some? then c.symbol.value else DefaultSymbol)
    ensures r.Some? ==> r.value.side == (if c.side.Some? then c.side.value else DefaultSide)
    ensures r.Some? ==> r.value.amount == (if c.amount.Amount? then c.amount.value else DefaultAmount)
  {
    match c
    case NonObject => None
    case ObjectConfig(symbol, side, amount) =>
      match amount
      case BadAmount => None
      case NoAmount => Some(BotOrder(symbol.GetOr(DefaultSymbol), side.GetOr(DefaultSide), DefaultAmount))
      case Amount(a) => Some(BotOrder(symbol.GetOr(DefaultSymbol), side.GetOr(DefaultSide), a))
  }

  /** The trade a bot places: a filled market order at the market's price, owned by the bot's owner and
      tagged with the bot. The side is not checked against "buy"/"sell". */
  function BotTrade(order: BotOrder, market: Market, id: nat, bot: Bot): Trade {
    Trade(id, order.symbol, order.side, "market", order.amount, market.price, Filled, true, bot.ownerId, Some(bot.id))
  }

  /** The background task scheduled by a start request, run as one step. A missing bot: nothing happens.
      Otherwise the bot becomes running; if its configuration cannot be read it ends in error with no trade;
      if it can and the market exists, exactly one filled trade is appended. The task never touches a
      portfolio balance: unlike an order placed through the trading router, a bot's fill is not settled. */
  method RunBotTask(db: Db, botId: nat)
    requires db.Valid()
    modifies db
    ensures db.Valid()
    ensures db.users == old(db.users) && db.portfolio == old(db.portfolio)
    ensures db.markets == old(db.markets) && db.scheduled == old(db.scheduled)
    ensures BotById(old(db.bots), botId).None? ==> db.bots == old(db.bots) && db.trades == old(db.trades)
    ensures BotById(old(db.bots), botId).Some? ==>
      var i := BotById(old(db.bots), botId).value;
      var bot := old(db.bots)[i];
      var order := ResolveConfig(bot.config);
      && (order.None? ==> db.bots == old(db.bots)[i := bot.(status := Errored)] && db.trades == old(db.trades))
      && (order.Some? ==> db.bots == old(db.bots)[i := bot.(status := Running)])
      && (order.Some? && FindMarket(db.markets, order.value.symbol).None? ==> db.trades == old(db.trades))
      && (order.Some? && FindMarket(db.markets, order.value.symbol).Some? ==>
            db.trades == old(db.trades) +
              [BotTrade(order.value, db.markets[FindMarket(db.markets, order.value.symbol).value], |old(db.trades)| + 1, bot)])
  {
    var found := BotById(db.bots, botId);
    if found.None? {
      return;
    }
    var i := found.value;
    var bot := db.bots[i];
    db.bots := db.bots[i := bot.(status := Running)];
    var order := ResolveConfig(bot.config);
    if order.None? {
      // The exception handler records the failure on the bot.
      db.bots := db.bots[i := bot.(status := Errored)];
      return;
    }
    var market := FindMarket(db.markets, order.value.symbol);
    if market.Some? {
      var trade := BotTrade(order.value, db.markets[market.value], |db.trades| + 1, bot);
      db.trades := db.trades + [trade];
    }
  }

  /** With dense ids, the owned-bot lookup and the plain id lookup find the same row. */
  lemma OwnedBotIsBotById(bots: seq<Bot>, botId: nat, caller: nat)
    requires DenseBotIds(bots)
    requires OwnedBot(bots, botId, caller).Some?
    ensures BotById(bots, botId) == OwnedBot(bots, botId, caller)
  {
    var i := OwnedBot(bots, botId, caller).value;
    var k := BotById(bots, botId);
    assert k.Some? && bots[k.value].id == bots[i].id;
  }

  /** A start does not change the status and a stop does not cancel the scheduled task: after an accepted
      start, a stop sent before the task runs is refused as "already stopped", and the task then leaves the
      bot running. */
  method StopRacesPendingTask(db: Db, caller: nat, botId: nat) returns (started: Result<BotAction>, stopped: Result<BotAction>)
    requires db.Valid()
    requires OwnedBot(db.bots, botId, caller).Some?
    requires db.bots[OwnedBot(db.bots, botId, caller).value].status == Stopped
    requires ResolveConfig(db.bots[OwnedBot(db.bots, botId, caller).value].config).Some?
    modifies db
    ensures started == Ok(BotAction(true, "Bot started successfully", "starting"))
    ensures stopped == Ok(BotAction(false, "Bot is already stopped", "stopped"))
    ensures OwnedBot(db.bots, botId, caller) == OwnedBot(old(db.bots), botId, caller)
    ensures db.bots[OwnedBot(db.bots, botId, caller).value].status == Running
  {
    var i := OwnedBot(db.bots, botId, caller).value;
    started := StartBot(db, caller, botId);
    stopped := StopBot(db, caller, botId);
    OwnedBotIsBotById(db.bots, botId, caller);
    RunBotTask(db, botId);
    SameBotsSameOwned(old(db.bots), db.bots, botId, caller);
  }

  /** Changing bot fields other than id and owner does not move the owned-bot lookup. */
  lemma SameBotsSameOwned(b1: seq<Bot>, b2: seq<Bot>, botId: nat, caller: nat)
    requires |b1| == |b2|
    requires forall i :: 0 <= i < |b1| ==> b1[i].id == b2[i].id && b1[i].ownerId == b2[i].ownerId
    ensures OwnedBot(b1, botId, caller) == OwnedBot(b2, botId, caller)
  {
  }

  /** One line of a bot's trade history. */
  datatype TradeSummary = TradeSummary(id: nat, symbol: string, side: string, amount: real, price: real, executed: bool, status: TradeStatus)

  function Summarize(t: Trade): TradeSummary {
    TradeSummary(t.id, t.symbol, t.side, t.amount, t.price, t.executed, t.status)
  }

  function BotFilter(botId: nat): Trade -> bool {
    (t: Trade) => t.botId == Some(botId)
  }

  /** The trades a bot placed, newest first, at most `limit` of them. */
  function BotTradeHistory(trades: seq<Trade>, botId: nat, limit: nat): (r: seq<Trade>)
    ensures forall i :: 0 <= i < |r| ==> r[i] in trades && r[i].botId == Some(botId)
    ensures var m := Filter(trades, BotFilter(botId));
      && |r| == Min(limit, |m|)
      && forall i :: 0 <= i < |r| ==> r[i] == m[|m| - 1 - i]
  {
    Paginate(Reverse(Filter(trades, BotFilter(botId))), 0, limit)
  }

  /** With ids given in creation order, a bot's history has strictly decreasing ids. */
  lemma BotTradesNewestFirst(trades: seq<Trade>, botId: nat, limit: nat)
    requires DenseTradeIds(trades)
    ensures var r := BotTradeHistory(trades, botId, limit);
      forall i, j :: 0 <= i < j < |r| ==> r[i].id > r[j].id
  {
    assert Ascending(trades, TradeId);
    FilterAscending(trades, BotFilter(botId), TradeId);
    var m := Filter(trades, BotFilter(botId));
    var r := BotTradeHistory(trades, botId, limit);
    forall i, j | 0 <= i < j < |r|
      ensures r[i].id > r[j].id
    {
      assert TradeId(m[|m| - 1 - j]) < TradeId(m[|m| - 1 - i]);
    }
  }

  /** GET /bots/{id}/trades: not found unless the caller owns the bot; otherwise the bot's history, each
      trade summarised, in the same order. */
  method GetBotTrades(db: Db, caller: nat, botId: nat, limit: nat) returns (r: Result<seq<TradeSummary>>)
    ensures OwnedBot(db.bots, botId, caller).None? ==> r == Err(NotFound(BotNotFoundDetail))
    ensures OwnedBot(db.bots, botId, caller).Some? ==>
      var history := BotTradeHistory(db.trades, botId, limit);
      && r.Ok?
      && |r.value| == |history|
      && forall i :: 0 <= i < |history| ==> r.value[i] == Summarize(history[i])
  {
    if OwnedBot(db.bots, botId, caller).None? {
      return Err(NotFound(BotNotFoundDetail));
    }
    var history := BotTradeHistory(db.trades, botId, limit);
    var result: seq<TradeSummary> := [];
    var k := 0;
    while k < |history|
      invariant 0 <= k <= |history|
      invariant |result| == k
      invariant forall j :: 0 <= j < k ==> result[j] == Summarize(history[j])
    {
      result := result + [Summarize(history[k])];
      k := k + 1;
    }
    r := Ok(result);
  }
}
