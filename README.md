# Crypto trading platform backend: the exchange ledger in Dafny

This project models the request handlers of the trading platform's backend as operations on an in-memory
database. The database is one `Database.Db` object whose tables (users, bots, trades, portfolio rows,
markets) are sequences kept in insertion order. It also holds the queue of scheduled bot runs.

- **Users** (`users.dfy`): registration keeps usernames and emails unique, and users can be looked up by id
  or listed a page at a time.
- **Trading** (`trading.dfy`, `holdings.dfy`): an order is checked in a fixed order (side, order type,
  limit price, market) and stored. A limit order stays open. A market order is filled at once and settled
  into the caller's portfolio: the base and quote balances move by the fill's deltas, and missing rows are
  created at zero. The read side covers the filtered, newest-first order listing, single-order and market
  lookup, and the portfolio view with USD values.
- **Bots** (`bots.dfy`): bots are created, updated, started and stopped. A start schedules a one-shot
  background task. When the task runs, it marks the bot running and, when the configured market exists,
  places one simulated filled trade; it marks the bot errored when its configuration cannot be read. A bot's trade history can be listed.

Modelling choices:

- Every handler that writes is a module-level method that takes the `Db` object and names what it
  modifies. The read-only queries are functions over the tables, except `Trading.GetPortfolio` and
  `Bots.GetBotTrades`, which build their result in a loop as the handlers do and are methods proved equal
  to a function.
- `Db.Valid()` is the invariant every writing handler of the model preserves:
  - ids are 1, 2, … in insertion order;
  - usernames and emails are unique (the unique columns of the user table);
  - there is at most one portfolio row per (user, asset). The portfolio table has no such constraint, and
    the code as written can break it for a self-pair market (see "## Findings"). The model settles fills
    with the corrected upsert, which keeps it.
- A row's creation time is its position in its table. So "newest first" is the reverse of table order, and
  with ids given in insertion order it means strictly decreasing ids.
- An exception that a handler does not catch is the `InternalError` outcome. Work committed before the
  exception stays.
- Money amounts and prices are `real`.
- Password hashing is a function parameter `hash`. The authenticated caller is a user id parameter.
- Request bodies are the values after the web framework's validation: a username and email reach
  `Users.CreateUser` only once the email has passed address validation.
- A bot configuration is modelled after JSON decoding, as `Models.ConfigText`. It is either malformed text
  or a JSON value. Of that value the model keeps only whether it is an object, and the keys "symbol",
  "side" and "amount".

Two behaviours of the code are kept as written:

- A market order whose symbol does not split into exactly two parts around "/" fails *after* its open
  trade row was committed (routers/trading.py:89-100). The open row stays in the table and no balance
  moves.
- A bot's simulated trade is recorded but never settled into the owner's portfolio.

## Model

| member | source | states |
|---|---|---|
| `Database.Db.constructor` | crypto-trading-platform/backend/models.py:7-86 | An empty exchange over the given markets satisfies the table invariant (dense ids, unique accounts, one portfolio row per key). |
| `Users.CreateUser` | crypto-trading-platform/backend/routers/users.py:28-54 | A taken username is refused first and a taken email second. Either refusal leaves the table unchanged. Otherwise exactly one active user is appended, with the next id and the hash of the password. The invariant and all other tables are preserved. |
| `Users.RegistrationKeepsAccountsDistinct` | crypto-trading-platform/backend/routers/users.py:30-44 | Appending a user whose username and email are both unused keeps all usernames and emails distinct. |
| `Users.ReadUser` | crypto-trading-platform/backend/routers/users.py:65-70 | Not found (404 "User not found") exactly when no user has the id. Otherwise the result is a user with that id. |
| `Users.ReadUserDense` | crypto-trading-platform/backend/routers/users.py:65-70 | With ids in insertion order, a lookup succeeds exactly for ids 1..n and returns row id-1, so a registered user is found again by its id. |
| `Users.ReadUsers` | crypto-trading-platform/backend/routers/users.py:60-63 | At most `limit` users, the ones at positions `skip`, `skip+1`, … in order; the page is short only at the end of the table. |
| `Trading.ValidateOrder` | crypto-trading-platform/backend/routers/trading.py:48-73 | The checks run in this order: side, order type, limit price (absent or 0 counts as missing), market. Each failure is a 400 with that check's message, and the unknown-market message names the symbol. The checks succeed exactly when all four pass, and success yields the market with that symbol. |
| `Trading.SplitPair` | crypto-trading-platform/backend/routers/trading.py:100 | The split succeeds exactly when the symbol contains one "/", giving the two sides of it. |
| `Trading.SplitPairJoin` | crypto-trading-platform/backend/routers/trading.py:100 | Splitting `base + "/" + quote` gives back `base` and `quote` when neither contains "/". |
| `Trading.CreateOrder` | crypto-trading-platform/backend/routers/trading.py:46-132 | A rejected order changes nothing. An accepted one appends one trade owned by the caller, with no bot. A limit order is stored open at its quoted price and moves no balance. A market order is stored filled at the market's price, moves the caller's base balance by ±amount and quote balance by ∓amount·price, creates only those two rows when missing, and changes no other balance. A market order with an unsplittable symbol fails with the open row kept. The invariant holds afterwards. |
| `Trading.SettleFill` | crypto-trading-platform/backend/routers/trading.py:99-130 | For every (user, asset), the new balance is the old one plus the base delta (caller, base) and the quote delta (caller, quote). Rows exist afterwards exactly where they existed before or for the caller's two legs. The invariant is kept. |
| `Holdings.UpsertBalance` | crypto-trading-platform/backend/routers/trading.py:113-128 | One upsert moves the (user, asset) balance by exactly its delta, moves no other balance, and adds only that key. |
| `Holdings.UpsertKeepsKeysUnique` | crypto-trading-platform/backend/routers/trading.py:113-120 | An upsert never creates a second row for a key. |
| `Holdings.SettleBalance` | crypto-trading-platform/backend/routers/trading.py:100-128 | Settling a fill moves the base balance by the base delta and the quote balance by the quote delta, and no other balance. It creates rows only for the two legs and keeps one row per key. |
| `Holdings.SettleAsWrittenAgrees` | crypto-trading-platform/backend/routers/trading.py:100-128 | When base and quote differ, the settlement as the handler writes it equals the upsert settlement. |
| `Holdings.SelfPairDuplicatesHolding` | crypto-trading-platform/backend/routers/trading.py:103-120 | A self-pair symbol ("BTC/BTC") for a user without a BTC row gets two BTC rows from the code as written, and the balance read afterwards ignores the quote leg. The upsert settlement gives one row with both legs. |
| `Trading.FirstFillCreatesTwoRows` | crypto-trading-platform/backend/routers/trading.py:113-128 | A user's first fill in a two-asset pair appends exactly two rows, base then quote, holding the two deltas. |
| `Trading.RepeatedFillDoublesDeltas` | crypto-trading-platform/backend/routers/trading.py:79-128 | The same market order settled twice moves each balance by twice its delta; nothing de-duplicates orders. |
| `Trading.GetOrders` | crypto-trading-platform/backend/routers/trading.py:134-145 | Only the caller's trades, filtered by status and symbol when those are non-empty. They come newest first, then the offset `skip` is applied and at most `limit` are kept. Length and contents are given exactly in terms of the matching trades. |
| `Trading.OrdersNewestFirst` | crypto-trading-platform/backend/routers/trading.py:144 | With ids in creation order, the listed ids strictly decrease. |
| `Common.FilterAscending` | crypto-trading-platform/backend/routers/trading.py:136-144 | Filtering a table keeps its creation order, so the filters never reorder trades. |
| `Trading.GetOrder` | crypto-trading-platform/backend/routers/trading.py:147-152 | Not found (404 "Trade not found") exactly when no trade has that id and belongs to the caller. Another user's trade is not found. |
| `Trading.GetOrderDense` | crypto-trading-platform/backend/routers/trading.py:147-152 | With ids in creation order, a trade is found exactly when row id-1 exists and is the caller's, and that row is returned. |
| `Trading.GetMarket` | crypto-trading-platform/backend/routers/trading.py:159-164 | Not found (404 naming the symbol) exactly when no market has that symbol; otherwise that market is returned. |
| `Trading.UsdValue` | crypto-trading-platform/backend/routers/trading.py:183-186 | The USD value is present exactly when an "{asset}/USD" market exists, and is the balance times that market's price. |
| `Trading.PortfolioView` | crypto-trading-platform/backend/routers/trading.py:171-188 | Every listed line has a non-zero balance, and every row with a non-zero balance is listed with its USD value. |
| `Trading.PortfolioViewSound` | crypto-trading-platform/backend/routers/trading.py:172-188 | Every listed line is the entry of some row with a non-zero balance. |
| `Trading.GetPortfolio` | crypto-trading-platform/backend/routers/trading.py:166-190 | The loop over the caller's rows produces exactly the portfolio view of those rows. |
| `Bots.CreateBot` | crypto-trading-platform/backend/routers/bots.py:79-103 | Configuration text that is not JSON is refused (400) and nothing changes. Otherwise one stopped bot, owned by the caller, is appended with the next id. |
| `Bots.GetBots` | crypto-trading-platform/backend/routers/bots.py:105-108 | Exactly the caller's bots. |
| `Bots.OwnedBot` | crypto-trading-platform/backend/routers/bots.py:145-148 | The bot lookup used by every per-bot handler finds a bot only if it has the id and belongs to the caller. |
| `Bots.GetBot` | crypto-trading-platform/backend/routers/bots.py:110-115 | Not found exactly when the caller owns no bot with that id. |
| `Bots.UpdateBot` | crypto-trading-platform/backend/routers/bots.py:117-141 | Ownership is checked before the configuration. Only name, strategy and configuration change; status and all other rows are kept. |
| `Bots.StartDecision` | crypto-trading-platform/backend/routers/bots.py:150-165 | A start is accepted exactly when the bot is not running. A refusal reports the current status; an acceptance reports "starting". |
| `Bots.StartBot` | crypto-trading-platform/backend/routers/bots.py:143-165 | Not found for another user's bot. An accepted start schedules exactly one task run and changes no row, not even the status. A refused start changes nothing. |
| `Bots.StopBot` | crypto-trading-platform/backend/routers/bots.py:167-190 | Not found for another user's bot. A stopped bot is a no-op reported with success false. A running or errored bot is set to stopped at once. |
| `Bots.ResolveConfig` | crypto-trading-platform/backend/routers/bots.py:50-54 | Reading the configuration fails exactly when it is not a JSON object or its amount is a value `float()` rejects. Otherwise each absent key takes its default: "BTC/USD", "buy", 0.01. |
| `Bots.RunBotTask` | crypto-trading-platform/backend/routers/bots.py:40-77 | A missing bot: nothing changes. Otherwise an unreadable configuration leaves the bot in error with no trade. A readable one leaves the bot running, and if the market exists appends exactly one filled market trade for the owner, tagged with the bot. No balance changes. |
| `Bots.OwnedBotIsBotById` | crypto-trading-platform/backend/routers/bots.py:41 | With ids in insertion order, the task's plain id lookup finds the same bot as the owner-checked lookup. |
| `Bots.StopRacesPendingTask` | crypto-trading-platform/backend/routers/bots.py:143-190 | After an accepted start, a stop sent before the task runs is refused as "already stopped", and the task then leaves the bot running. |
| `Bots.BotTradeHistory` | crypto-trading-platform/backend/routers/bots.py:200 | Exactly the bot's trades, newest first, at most `limit` of them. |
| `Bots.BotTradesNewestFirst` | crypto-trading-platform/backend/routers/bots.py:200 | With ids in creation order, the history's ids strictly decrease. |
| `Bots.GetBotTrades` | crypto-trading-platform/backend/routers/bots.py:192-215 | Not found unless the caller owns the bot. Otherwise the bot's history, each trade summarised, in the same order. |

## Left out

- `get_markets` (routers/trading.py:154-157) returns the market table unchanged. It is not modelled as a separate operation.
- `read_users_me` (routers/users.py:56-58) returns the authenticated caller unchanged. It is not modelled.
- The market websocket feed (routers/trading.py:192-214) is not modelled. It is an endless I/O loop that sends the market table every five seconds.
- Authentication, token handling and password hashing (security.py) are not modelled. The caller is an id parameter and hashing is the `hash` parameter.
- Application startup and routing (main.py) are not modelled. No handler writes a market row: the market table is seeded from outside, and the constructor receives it.
- Concurrency is not modelled. Each handler and each background run is one atomic step. Interleavings inside a handler are not captured, for example two fills reading the same balance and one update being lost.
- The background task runs only when a caller invokes `Bots.RunBotTask`. The model records scheduled runs in `scheduled` but does not tie a run to a queue entry.
- Timestamps (created_at, updated_at, executed_at) are not kept. Creation order is table position, so the newest-first listings put rows created in the same instant in reverse insertion order, where the database leaves their order unspecified. executed_at is recorded only as set or unset.
- Floating-point rounding is not modelled. Amounts, prices and balances are exact reals.
- Bot configuration keys "symbol" and "side" whose JSON value is not a string are not modelled. Likewise, amounts that `float()` accepts in ways other than numbers are not distinguished.
- `Trading.CreateOrder`, `Trading.SettleFill`: both settle a market fill with the corrected upsert
  `Holdings.Settle`. For a self-pair market ("BTC/BTC") and a caller with no row for that asset, the code
  as written appends two rows; later lookups and settlements see only the first of them, while the portfolio
  listing still shows both. That behaviour is modelled separately as
  `Holdings.SettleAsWritten` (see "## Findings"); for every pair with two different assets the two agree
  (`Holdings.SettleAsWrittenAgrees`).
- `Users.ReadUsers`, `Bots.GetBots`, `Trading.GetPortfolio`: the source queries have no `ORDER BY`, so the database promises no row order; the model returns their rows in insertion order.
- Negative `skip` or `limit` values are not modelled, because their meaning is database specific. Both are `nat`.
- The query parameters' defaults (skip 0 and limit 100 for `Trading.GetOrders` and `Users.ReadUsers`, limit 10 for `Bots.GetBotTrades`) are not modelled; callers pass every value.
- Path ids are `nat` where the handlers take any integer. A negative id matches no row there, which is the not-found answer; the model does not state it.
- `Users.CreateUser`: the email is the address after validation and normalisation (surrounding whitespace stripped, a "Name <addr>" form reduced to the address, the domain lower-cased), so "taken" means taken after normalisation; a string that is not an address is refused with a 422 before the handler runs. The model compares the strings it is given and does not model the normalisation or the 422.
- Failures of the storage layer itself (connection errors, failed commits) are not modelled.
- The Market columns volume_24h and change_24h are carried in `Models.Market` but no handler modelled here reads them.

## Findings

| source | as written | input that shows it | evidently intended | confidence | as-written member | corrected member |
|---|---|---|---|---|---|---|
| crypto-trading-platform/backend/routers/trading.py:103-128 | Both portfolio rows are looked up before either is created. When base and quote name the same asset and the user has no row for it, two rows for the same (user, asset) are added, one per leg. Later settlements update only the first row and later balance lookups read only the first row. The portfolio listing still shows both rows. | market order on a listed market "BTC/BTC", side "buy", amount 1, price 2, for a user with no BTC row: rows (BTC, 1) and (BTC, -2); the balance read is 1 instead of -1 | one row per (user, asset), holding the sum of both legs | low, not executed (needs a self-pair market in the table) | `Holdings.SettleAsWritten` | `Holdings.Settle` |
