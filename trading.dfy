/** The trading router: order intake, immediate fill and settlement of market orders, and the read-side
    queries over orders, markets and the portfolio. */
module Trading {
  import opened Common
  import opened Models
  import opened Holdings
  import opened Database

  /** The body of POST /orders. `price` is optional; market orders ignore it. */
  datatype OrderRequest = OrderRequest(symbol: string, side: string, orderType: string, amount: real, price: Option<real>)

  const SideDetail := "Side must be 'buy' or 'sell'"
  const OrderTypeDetail := "Order type must be 'market' or 'limit'"
  const PriceDetail := "Price is required for limit orders"
  const TradeNotFoundDetail := "Trade not found"

  function MarketNotFoundDetail(symbol: string): string { "Market " + symbol + " not found" }

  predicate SideOk(side: string) { side == "buy" || side == "sell" }
  predicate OrderTypeOk(orderType: string) { orderType == "market" || orderType == "limit" }

  /** Python truthiness of the optional price: an absent price and a price of 0 both count as missing. */
  predicate PriceGiven(p: Option<real>) { p.Some? && p.value != 0.0 }

  /** The field checks that come before the market lookup. */
  predicate FieldsOk(req: OrderRequest) {
    SideOk(req.side) && OrderTypeOk(req.orderType) && (req.orderType == "limit" ==> PriceGiven(req.price))
  }

  /** The checks of an order request, in the order the handler makes them: side, order type, limit price,
      then the market. Each failure names the first check that failed; success yields the market. */
  function ValidateOrder(req: OrderRequest, markets: seq<Market>): (r: Result<Market>)
    ensures !SideOk(req.side) ==> r == Err(BadRequest(SideDetail))
    ensures SideOk(req.side) && !OrderTypeOk(req.orderType) ==> r == Err(BadRequest(OrderTypeDetail))
    ensures SideOk(req.side) && req.orderType == "limit" && !PriceGiven(req.price) ==> r == Err(BadRequest(PriceDetail))
    ensures FieldsOk(req) && (forall m :: m in markets ==> m.symbol != req.symbol) ==>
      r == Err(BadRequest(MarketNotFoundDetail(req.symbol)))
    ensures FieldsOk(req) && (exists m :: m in markets && m.symbol == req.symbol) ==> r.Ok?
    ensures r.Ok? ==> FieldsOk(req) && r.value in markets && r.value.symbol == req.symbol
  {
    if !SideOk(req.side) then Err(BadRequest(SideDetail))
    else if !OrderTypeOk(req.orderType) then Err(BadRequest(OrderTypeDetail))
    else if req.orderType == "limit" && !PriceGiven(req.price) then Err(BadRequest(PriceDetail))
    else match FindMarket(markets, req.symbol)
      case None => Err(BadRequest(MarketNotFoundDetail(req.symbol)))
      case Some(i) => Ok(markets[i])
  }

  /** `base, quote = symbol.split("/")`: succeeds exactly when the symbol holds one "/". */
  function SplitPair(symbol: string): (r: Option<(string, string)>)
    ensures r.Some? ==> symbol == r.value.0 + "/" + r.value.1 && '/' !in r.value.0 && '/' !in r.value.1
    ensures r.None? ==> forall i :: 0 <= i < |symbol| && symbol[i] == '/' ==> '/' in symbol[..i] || '/' in symbol[i + 1..]
  {
    match FindFirst(symbol, (c: char) => c == '/')
    case None => None
    case Some(i) =>
      if '/' in symbol[i + 1..] then None
      else
        assert symbol == symbol[..i] + "/" + symbol[i + 1..];
        Some((symbol[..i], symbol[i + 1..]))
  }

  /** Joining two slash-free asset names with "/" and splitting again gives them back. */
  lemma SplitPairJoin(base: string, quote: string)
    requires '/' !in base && '/' !in quote
    ensures SplitPair(base + "/" + quote) == Some((base, quote))
  {
    var s := base + "/" + quote;
    assert s[|base|] == '/';
    assert forall j :: 0 <= j < |base| ==> s[j] == base[j];
    assert s[..|base|] == base;
    assert s[|base| + 1..] == quote;
  }

  /** The change to the base-asset balance: a buy adds the amount, a sell removes it. */
  function BaseDelta(side: string, amount: real): real {
    if side == "buy" then amount else -amount
  }

  /** The change to the quote-asset balance: a buy pays amount * price, a sell receives it. */
  function QuoteDelta(side: string, amount: real, price: real): real {
    if side == "buy" then -(amount * price) else amount * price
  }

  /** The price an order is stored at: the quoted price of a limit order, the market's price otherwise. */
  function FillPrice(req: OrderRequest, market: Market): real
    requires req.orderType == "limit" ==> req.price.Some?
  {
    if req.orderType == "limit" then req.price.value else market.price
  }

  /** The row an accepted order is first stored as: open, unexecuted, owned by the caller, no bot. */
  function PlacedTrade(req: OrderRequest, market: Market, id: nat, caller: nat): Trade
    requires req.orderType == "limit" ==> req.price.Some?
  {
    Trade(id, req.symbol, req.side, req.orderType, req.amount, FillPrice(req, market), Open, false, caller, None)
  }

  /** A user's first fill in a pair with two different assets appends exactly two rows, base then quote,
      holding the two deltas. */
  lemma {:induction false} FirstFillCreatesTwoRows(rows: seq<Holding>, u: nat, base: string, quote: string,
                                                   side: string, amount: real, price: real)
    requires base != quote
    requires !HasHolding(rows, u, base) && !HasHolding(rows, u, quote)
    ensures Settle(rows, u, base, quote, BaseDelta(side, amount), QuoteDelta(side, amount, price)) ==
      rows + [Holding(u, base, BaseDelta(side, amount)), Holding(u, quote, QuoteDelta(side, amount, price))]
  {
    var mid := rows + [Holding(u, base, 0.0 + BaseDelta(side, amount))];
    assert Upsert(rows, u, base, BaseDelta(side, amount)) == mid;
    AppendIndex(rows, Holding(u, base, 0.0 + BaseDelta(side, amount)), u, quote);
  }

  /** Submitting the same market order twice applies its deltas twice: there is no de-duplication. */
  lemma {:induction false} RepeatedFillDoublesDeltas(rows: seq<Holding>, u: nat, base: string, quote: string,
                                                     side: string, amount: real, price: real)
    requires base != quote
    ensures var once := Settle(rows, u, base, quote, BaseDelta(side, amount), QuoteDelta(side, amount, price));
      var twice := Settle(once, u, base, quote, BaseDelta(side, amount), QuoteDelta(side, amount, price));
      && BalanceOf(twice, u, base) == BalanceOf(rows, u, base) + 2.0 * BaseDelta(side, amount)
      && BalanceOf(twice, u, quote) == BalanceOf(rows, u, quote) + 2.0 * QuoteDelta(side, amount, price)
  {
    var dB, dQ := BaseDelta(side, amount), QuoteDelta(side, amount, price);
    var once := Settle(rows, u, base, quote, dB, dQ);
    SettleBalance(rows, u, base, quote, dB, dQ, u, base);
    SettleBalance(rows, u, base, quote, dB, dQ, u, quote);
    SettleBalance(once, u, base, quote, dB, dQ, u, base);
    SettleBalance(once, u, base, quote, dB, dQ, u, quote);
  }

  /** The settlement step of a market fill: the caller's two balances move by the deltas; nothing else. */
  method SettleFill(db: Db, caller: nat, base: string, quote: string, dB: real, dQ: real)
    requires db.Valid()
    modifies db`portfolio
    ensures db.Valid()
    ensures forall u: nat, a: string ::
              BalanceOf(db.portfolio, u, a) ==
                BalanceOf(old(db.portfolio), u, a)
                + (if u == caller && a == base then dB else 0.0)
                + (if u == caller && a == quote then dQ else 0.0)
    ensures forall u: nat, a: string ::
              HasHolding(db.portfolio, u, a) <==>
                HasHolding(old(db.portfolio), u, a) || (u == caller && (a == base || a == quote))
  {
    var before := db.portfolio;
    db.portfolio := Settle(before, caller, base, quote, dB, dQ);
    SettleBalance(before, caller, base, quote, dB, dQ, caller, base);
    forall u: nat, a: string
      ensures BalanceOf(db.portfolio, u, a) ==
        BalanceOf(before, u, a) + (if u == caller && a == base then dB else 0.0) + (if u == caller && a == quote then dQ else 0.0)
      ensures HasHolding(db.portfolio, u, a) <==> HasHolding(before, u, a) || (u == caller && (a == base || a == quote))
    {
      SettleBalance(before, caller, base, quote, dB, dQ, u, a);
    }
  }

  /** POST /orders. A rejected request changes nothing. An accepted one appends one trade owned by the
      caller, stored at the quoted price (limit) or the market's price (market). A limit order stays open and
      touches no balance. A market order is filled at once and moves the caller's base and quote balances by
      the fill's deltas, creating missing rows at 0; no other balance changes and no bound is checked. */
  method CreateOrder(db: Db, caller: nat, req: OrderRequest) returns (r: Result<Trade>)
    requires db.Valid()
    modifies db
    ensures db.Valid()
    ensures db.users == old(db.users) && db.bots == old(db.bots)
    ensures db.markets == old(db.markets) && db.scheduled == old(db.scheduled)
    ensures ValidateOrder(req, db.markets).Err? ==>
      && r == Err(ValidateOrder(req, db.markets).error)
      && db.trades == old(db.trades)
      && db.portfolio == old(db.portfolio)
    ensures r.Ok? ==>
      && r.value.userId == caller && r.value.botId == None && r.value.amount == req.amount
      && r.value.price == (if req.orderType == "limit" then req.price.value else ValidateOrder(req, db.markets).value.price)
    ensures ValidateOrder(req, db.markets).Ok? && req.orderType == "limit" ==>
      && r == Ok(PlacedTrade(req, ValidateOrder(req, db.markets).value, |old(db.trades)| + 1, caller))
      && db.trades == old(db.trades) + [r.value]
      && db.portfolio == old(db.portfolio)
    ensures ValidateOrder(req, db.markets).Ok? && req.orderType == "market" && SplitPair(req.symbol).None? ==>
      && r == Err(InternalError)
      && db.trades == old(db.trades) + [PlacedTrade(req, ValidateOrder(req, db.markets).value, |old(db.trades)| + 1, caller)]
      && db.portfolio == old(db.portfolio)
    ensures ValidateOrder(req, db.markets).Ok? && req.orderType == "market" && SplitPair(req.symbol).Some? ==>
      var base, quote := SplitPair(req.symbol).value.0, SplitPair(req.symbol).value.1;
      var price := ValidateOrder(req, db.markets).value.price;
      && r == Ok(PlacedTrade(req, ValidateOrder(req, db.markets).value, |old(db.trades)| + 1, caller).(status := Filled, executed := true))
      && db.trades == old(db.trades) + [r.value]
      && (forall u: nat, a: string :: BalanceOf(db.portfolio, u, a) ==
            BalanceOf(old(db.portfolio), u, a)
            + (if u == caller && a == base then BaseDelta(req.side, req.amount) else 0.0)
            + (if u == caller && a == quote then QuoteDelta(req.side, req.amount, price) else 0.0))
      && (forall u: nat, a: string :: HasHolding(db.portfolio, u, a) <==>
            HasHolding(old(db.portfolio), u, a) || (u == caller && (a == base || a == quote)))
  {
    var checked := ValidateOrder(req, db.markets);
    if checked.Err? {
      return Err(checked.error);
    }
    var placed := PlacedTrade(req, checked.value, |db.trades| + 1, caller);
    // The open row is committed before a market order is executed.
    db.trades := db.trades + [placed];
    if req.orderType == "market" {
      var pair := SplitPair(req.symbol);
      if pair.None? {
        // The split raises; the status change is never committed, the open row stays.
        return Err(InternalError);
      }
      var base, quote := pair.value.0, pair.value.1;
      var filled := placed.(status := Filled, executed := true);
      db.trades := db.trades[|db.trades| - 1 := filled];
      SettleFill(db, caller, base, quote, BaseDelta(req.side, req.amount), QuoteDelta(req.side, req.amount, placed.price));
      r := Ok(filled);
    } else {
      r := Ok(placed);
    }
  }

  /** Python truthiness of an optional query filter: absent and "" both mean "do not filter". */
  predicate Given(s: Option<string>) { s.Some? && s.value != "" }

  predicate OrderMatches(t: Trade, caller: nat, status: Option<string>, symbol: Option<string>) {
    && t.userId == caller
    && (Given(status) ==> TradeStatusName(t.status) == status.value)
    && (Given(symbol) ==> t.symbol == symbol.value)
  }

  function OrderFilter(caller: nat, status: Option<string>, symbol: Option<string>): Trade -> bool {
    (t: Trade) => OrderMatches(t, caller, status, symbol)
  }

  /** The caller's trades that pass the filters, in creation order. */
  function MatchingOrders(trades: seq<Trade>, caller: nat, status: Option<string>, symbol: Option<string>): seq<Trade> {
    Filter(trades, OrderFilter(caller, status, symbol))
  }

  /** GET /orders: only the caller's trades, only those passing the filters, newest first, then offset `skip`
      and at most `limit` of them. */
  function GetOrders(trades: seq<Trade>, caller: nat, status: Option<string>, symbol: Option<string>, skip: nat, limit: nat)
    : (r: seq<Trade>)
    ensures forall i :: 0 <= i < |r| ==> r[i] in trades && OrderMatches(r[i], caller, status, symbol)
    ensures var m := MatchingOrders(trades, caller, status, symbol);
      && |r| == Min(limit, if skip < |m| then |m| - skip else 0)
      && forall i :: 0 <= i < |r| ==> r[i] == m[|m| - 1 - (skip + i)]
  {
    Paginate(Reverse(MatchingOrders(trades, caller, status, symbol)), skip, limit)
  }

  /** With ids given in creation order, the order listing has strictly decreasing ids. */
  lemma OrdersNewestFirst(trades: seq<Trade>, caller: nat, status: Option<string>, symbol: Option<string>, skip: nat, limit: nat)
    requires DenseTradeIds(trades)
    ensures var r := GetOrders(trades, caller, status, symbol, skip, limit);
      forall i, j :: 0 <= i < j < |r| ==> r[i].id > r[j].id
  {
    assert Ascending(trades, TradeId);
    FilterAscending(trades, OrderFilter(caller, status, symbol), TradeId);
    var m := MatchingOrders(trades, caller, status, symbol);
    var r := GetOrders(trades, caller, status, symbol, skip, limit);
    forall i, j | 0 <= i < j < |r|
      ensures r[i].id > r[j].id
    {
      assert TradeId(m[|m| - 1 - (skip + j)]) < TradeId(m[|m| - 1 - (skip + i)]);
    }
  }

  /** GET /orders/{id}: found only when the trade exists and belongs to the caller. */
  function GetOrder(trades: seq<Trade>, id: nat, caller: nat): (r: Result<Trade>)
    ensures r.Err? <==> forall t :: t in trades ==> !(t.id == id && t.userId == caller)
    ensures r.Err? ==> r.error == NotFound(TradeNotFoundDetail)
    ensures r.Ok? ==> r.value in trades && r.value.id == id && r.value.userId == caller
  {
    match FindFirst(trades, (t: Trade) => t.id == id && t.userId == caller)
    case None => Err(NotFound(TradeNotFoundDetail))
    case Some(i) => Ok(trades[i])
  }

  /** With ids given in creation order, a trade is found by id exactly when its row exists and belongs to the
      caller; so the order a placement returns is the one a later lookup of its id returns. */
  lemma GetOrderDense(trades: seq<Trade>, id: nat, caller: nat)
    requires DenseTradeIds(trades)
    ensures GetOrder(trades, id, caller).Ok? <==> 1 <= id <= |trades| && trades[id - 1].userId == caller
    ensures GetOrder(trades, id, caller).Ok? ==> GetOrder(trades, id, caller).value == trades[id - 1]
  {
    if 1 <= id <= |trades| {
      assert trades[id - 1].id == id;
    }
  }

  /** GET /markets/{symbol}: the market with that symbol, or a not-found naming the symbol. */
  function GetMarket(markets: seq<Market>, symbol: string): (r: Result<Market>)
    ensures r.Err? <==> forall m :: m in markets ==> m.symbol != symbol
    ensures r.Err? ==> r.error == NotFound(MarketNotFoundDetail(symbol))
    ensures r.Ok? ==> r.value in markets && r.value.symbol == symbol
  {
    match FindMarket(markets, symbol)
    case None => Err(NotFound(MarketNotFoundDetail(symbol)))
    case Some(i) => Ok(markets[i])
  }

  /** One line of the portfolio listing. */
  datatype PortfolioEntry = PortfolioEntry(asset: string, balance: real, valueUsd: Option<real>)

  /** The USD value of a balance: set exactly when an "{asset}/USD" market exists, at that market's price. */
  function UsdValue(asset: string, balance: real, markets: seq<Market>): (r: Option<real>)
    ensures r.None? <==> forall m :: m in markets ==> m.symbol != asset + "/USD"
    ensures r.Some? ==> exists m :: m in markets && m.symbol == asset + "/USD" && r.value == balance * m.price
  {
    match FindMarket(markets, asset + "/USD")
    case None => None
    case Some(i) => Some(balance * markets[i].price)
  }

  function Entry(h: Holding, markets: seq<Market>): PortfolioEntry {
    PortfolioEntry(h.asset, h.balance, UsdValue(h.asset, h.balance, markets))
  }

  /** The caller's portfolio rows, in table order. */
  function UserHoldings(rows: seq<Holding>, u: nat): seq<Holding> {
    Filter(rows, (h: Holding) => h.userId == u)
  }

  /** The listing of `rows`: every row with a non-zero balance, and only those, each with its USD value. */
  function PortfolioView(rows: seq<Holding>, markets: seq<Market>): (r: seq<PortfolioEntry>)
    ensures |r| <= |rows|
    ensures forall i :: 0 <= i < |r| ==> r[i].balance != 0.0
    ensures forall j :: 0 <= j < |rows| && rows[j].balance != 0.0 ==> Entry(rows[j], markets) in r
  {
    if rows == [] then []
    else
      var init := rows[..|rows| - 1];
      var last := rows[|rows| - 1];
      var view := PortfolioView(init, markets);
      assert forall j :: 0 <= j < |init| ==> init[j] == rows[j];
      if last.balance == 0.0 then view else view + [Entry(last, markets)]
  }

  /** Every line of the listing comes from a row of `rows` with a non-zero balance. */
  lemma {:induction false} PortfolioViewSound(rows: seq<Holding>, markets: seq<Market>)
    ensures forall i :: 0 <= i < |PortfolioView(rows, markets)| ==>
      exists j :: 0 <= j < |rows| && rows[j].balance != 0.0 && PortfolioView(rows, markets)[i] == Entry(rows[j], markets)
  {
    if rows != [] {
      var init := rows[..|rows| - 1];
      PortfolioViewSound(init, markets);
      var view := PortfolioView(init, markets);
      var r := PortfolioView(rows, markets);
      forall i | 0 <= i < |r|
        ensures exists j :: 0 <= j < |rows| && rows[j].balance != 0.0 && r[i] == Entry(rows[j], markets)
      {
        if i < |view| {
          assert r[i] == view[i];
          assert exists j :: 0 <= j < |init| && init[j].balance != 0.0 && view[i] == Entry(init[j], markets);
          var j :| 0 <= j < |init| && init[j].balance != 0.0 && view[i] == Entry(init[j], markets);
          assert rows[j] == init[j];
        } else {
          assert r[i] == Entry(rows[|rows| - 1], markets);
        }
      }
    } else {
      assert PortfolioView(rows, markets) == [];
    }
  }

  /** GET /portfolio: built row by row from the caller's holdings, skipping zero balances. */
  method GetPortfolio(db: Db, caller: nat) returns (r: seq<PortfolioEntry>)
    ensures r == PortfolioView(UserHoldings(db.portfolio, caller), db.markets)
  {
    var rows := UserHoldings(db.portfolio, caller);
    r := [];
    var i := 0;
    while i < |rows|
      invariant 0 <= i <= |rows|
      invariant r == PortfolioView(rows[..i], db.markets)
    {
      var item := rows[i];
      assert rows[..i + 1][..i] == rows[..i];
      assert rows[..i + 1][i] == item;
      if item.balance != 0.0 {
        var value: Option<real> := None;
        var market := FindMarket(db.markets, item.asset + "/USD");
        if market.Some? {
          value := Some(item.balance * db.markets[market.value].price);
          assert UsdValue(item.asset, item.balance, db.markets).value == value.value;
        } else {
          assert value == UsdValue(item.asset, item.balance, db.markets);
        }
        r := r + [PortfolioEntry(item.asset, item.balance, value)];
      }
      i := i + 1;
    }
    assert rows[..|rows|] == rows;
  }
}
