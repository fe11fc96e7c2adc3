# HFT simulation: trading-bot positions and market-server registry

This project models the two stateful components of the high-frequency trading
simulation and proves properties of them:

- **The trading bot** (`trading.dfy`, module `Trading`). `TradingBot` keeps
  the latest market snapshot and a private map from symbol to position
  (average price, quantity).
  - `GetTradingStrategy` decides BUY, SELL or HOLD for one symbol and updates
    that symbol's position in place.
  - `ProcessMarketData` replaces the snapshot and decides once per key.
  - Each method is proved against a pure specification function: `Strategy`
    for one decision, `Decisions` for a whole pass. The lemmas beside them
    state what the bot promises.
- **The market server** (`market.dfy`, module `Market`). `MarketServer` keeps:
  - the table of the latest quote per symbol;
  - the registry of connected clients, which maps a stream writer to its peer
    name;
  - two records of what each writer has been through: the set of writers that
    have been closed, and the lines each writer has accepted.

  Its methods are:
  - `GenerateMarketData`, which regenerates the five fixed symbols;
  - `Register`, `RemoveClient` and `HandleClient`, which cover a session's
    registration, read loop and removal;
  - `Send`, `BroadcastPass` and `BroadcastTick`, which cover one iteration of
    the broadcast loop.

  They are proved against the pure functions `Regenerated`, `Registered`,
  `Removed` and `Broadcast` over the value `Sessions`.
- `snapshots.dfy` (module `Snapshots`) holds the quote and snapshot types the
  two sides share.

Every random draw is an input with a range precondition:
- `Draw` for the bot: the decision, the purchase size and the sell draw;
- `TickDraw` for the server: the seed price, the price change, the volume and
  the timestamp.

The network outcome is an input as well. `HandleClient` reads the sequence of
events its `readline()` produces. A broadcast is given the set of writers whose
write fails.

**A SELL with one to nine units held raises.** The SELL branch calls
`random.randint(10, quantity)` (trading_bot.py:75). With a quantity between
one and nine that range is empty, and the call raises `ValueError`.

- The model follows the code. `Strategy` returns `EmptySellRange(held)` with
  the position left as created.
- `Decisions` and `ProcessMarketData` end the pass at that outcome, just as
  the exception leaves the loop of `process_market_data`.
- `Trading.ResidueRaises` shows the state is reachable: buy 15, then sell 10,
  leaves 5 units, and the next SELL draw raises.

**No price property is claimed.** The code neither clamps nor checks prices,
so no price property is claimed.

## Model

| member | source | states |
|---|---|---|
| Trading.StrategyFrame | trading_bot.py:36-83 | A decision changes no position except its own symbol's. It only creates that position when the symbol is quoted, and it keeps every quantity non-negative. For a symbol missing from the snapshot it is a HOLD that leaves the positions untouched. |
| Trading.FirstReferenceCreates | trading_bot.py:42-46 | The first call for a quoted symbol creates the empty position (0, 0), even when the decision is not BUY. |
| Trading.BuyAveragePrice | trading_bot.py:62-67 | Buying keeps the cost basis: new average × new quantity = old average × old quantity + price × bought. From an empty position the average is the price. In general it lies between the old average and the price. |
| Trading.BuyEffect | trading_bot.py:57-68 | BUY returns BUY and adds exactly the drawn quantity, which is between 10 and 100. It recomputes the quantity-weighted average. |
| Trading.SellEffect | trading_bot.py:70-83 | With nothing held, SELL is a HOLD that changes nothing but the lazy creation. With 1–9 held, the sell draw raises. Otherwise SELL returns SELL and exactly the drawn quantity leaves, which is between 10 and all of the held units. The new position is (old average, held − drawn), so the quantity stays non-negative and the average price is unchanged. |
| Trading.HoldEffect | trading_bot.py:42-83 | A HOLD changes nothing except the lazy creation of the position. |
| Trading.TradeIffQuantityChanges | trading_bot.py:57-83 | A call reports BUY or SELL exactly when the held quantity of its symbol changes. |
| Trading.WorkedExample | trading_bot.py:57-81 | Buying 50 at 100, then 50 at 200, then selling 30 gives the positions (100, 50), (150, 100) and (150, 70). |
| Trading.ResidueRaises | trading_bot.py:70-80 | Buying 15 and selling 10 leaves 5 units. A later SELL draw then raises instead of trading. |
| Trading.DecisionsOutcomes | trading_bot.py:85-91 | A pass decides at most once per key. It stops early only at a raised error, which is its last outcome. Every quoted key it decided on has a position afterwards. |
| Trading.DecisionsPerKey | trading_bot.py:85-91 | Each key the pass reaches gets exactly the outcome and the position that its own decision gives from the positions before the pass, whatever the other keys decided. A key after the point where the pass stopped keeps its old position. |
| Trading.DecisionsPositions | trading_bot.py:85-91 | A pass keeps every quantity non-negative. It leaves the position of every symbol not in the snapshot untouched and creates no position outside the snapshot's keys. |
| Trading.TradingBot.constructor | trading_bot.py:8-17 | A new bot has an empty snapshot and no positions. |
| Trading.TradingBot.GetTradingStrategy | trading_bot.py:31-83 | The outcome and the new position map are those of `Strategy` on the old positions. The invariant that quantities are non-negative is kept. |
| Trading.TradingBot.ProcessMarketData | trading_bot.py:85-91 | The snapshot is replaced wholesale. The outcomes and positions are those of `Decisions` over the snapshot's keys in iteration order, from the old positions. The non-negative invariant is kept. |
| Market.RegeneratedKeysSoFar | market_server.py:27-39 | After the first n symbols of a pass, the table's keys are the old keys plus exactly those n symbols. |
| Market.RegeneratedQuotes | market_server.py:28-39 | Each regenerated symbol is quoted from the table as it was before the pass. |
| Market.RegeneratedUntouched | market_server.py:28-39 | An entry whose key is not among the regenerated symbols is untouched. |
| Market.NotYetRegenerated | market_server.py:28-30 | When the loop reaches a symbol, its entry is still the one from before the pass. So the previous price is read from the old table. |
| Market.RegenerateStep | market_server.py:28-39 | Regenerating the next symbol replaces its entry with the quote built from its previous price, or from the seed draw if it had none. |
| Market.RegeneratedKeys | market_server.py:27-39 | From a table holding only fixed symbols, a full pass leaves exactly the five fixed symbols. |
| Market.RegeneratedComplete | market_server.py:25-39 | After a full pass every fixed symbol has an entry, filed under its own symbol. Its volume lies in [1000, 100000] and equals the drawn one. Its timestamp is the drawn one. Its price is the previous price, or the seed if there was none, plus the drawn change. |
| Market.RegisterEffect | market_server.py:66 | Registering files the writer under its peer name and changes no other registration, close or stream. |
| Market.RemoveIdempotent | market_server.py:86-93 | Removing a writer twice is the same as removing it once. |
| Market.RemoveEffect | market_server.py:86-93 | A removal takes exactly that writer out of the registry. Removing an absent writer changes nothing. It was closed exactly when it had been registered, and every other registration and every stream is kept. A live registry stays live. |
| Market.HandlerLeavesNoTrace | market_server.py:59-84 | Registering and then removing a fresh writer leaves the registry as it was, with that writer closed once. |
| Market.DeliveredStream | market_server.py:48-51 | A delivery appends the line to exactly the targets' streams. |
| Market.VisitOne | market_server.py:48-54 | Visiting one more registered writer either removes and closes it, when its write fails, or appends the line to its stream. |
| Market.BroadcastEffect | market_server.py:48-54 | After a pass, the registry is the starting registry minus exactly the failing writers, and those writers are closed. Every other writer present at the start accepts the same line after everything it had. No other stream changes. From a live registry, no writer is closed twice. |
| Market.MarketServer.constructor | market_server.py:8-12 | A new server has no clients, an empty table, no closes and no streams. |
| Market.MarketServer.GenerateMarketData | market_server.py:25-39 | The table becomes `Regenerated` of the old table over the five symbols in order. Its keys are exactly the fixed symbols, and every entry is filed under its own symbol with a volume in [1000, 100000]. |
| Market.MarketServer.Register | market_server.py:66 | The sessions become `Registered` of the old ones. A live registry stays live when the writer has not been closed before. |
| Market.MarketServer.RemoveClient | market_server.py:86-93 | The sessions become `Removed` of the old ones. A live registry stays live. |
| Market.MarketServer.HandleClient | market_server.py:59-84 | Lines are read until the first end, cancellation or failure. Every exit removes the writer, so the sessions end as `Removed(Registered(old))`, and the registry stays live. |
| Market.MarketServer.Send | market_server.py:49-54 | One loop body takes the pass state from "the writers in `done` visited" to "the writers in `done` and `w` visited". |
| Market.MarketServer.BroadcastPass | market_server.py:48-54 | Iterating over a copy of the registered writers, the sessions become `Broadcast` of the old ones, and the registry stays live. Removal is taken to return normally (see "## Left out"). |
| Market.MarketServer.BroadcastTick | market_server.py:43-54 | The table is regenerated and then serialised once. Every registered writer is offered that one line followed by a newline. |

## Left out

- asyncio networking is not modelled: `start_server`, `open_connection`, `readline`, `drain`, `wait_closed` and `asyncio.sleep`. The outcomes of `readline` and of `write`/`drain` are inputs: the read events, and which writers fail. `wait_closed` is taken to return normally (see the next three lines).
- Market.MarketServer.BroadcastPass: removing a writer is taken to return normally. In the source, `remove_client` awaits `writer.wait_closed()` (market_server.py:93). When the connection was lost with an error, that await raises the same error. Raised inside the `except` at market_server.py:52-54, it leaves the `for` at line 48 and `broadcast_market_data` itself. The writers not yet visited then get nothing and broadcasting stops. The model's pass always visits every writer.
- Market.MarketServer.BroadcastTick: inherits the gap of `BroadcastPass`. In the source, an error raised by `wait_closed` ends the `while` loop at market_server.py:43, which the model's tick does not capture.
- Market.MarketServer.RemoveClient and Market.MarketServer.HandleClient: an error raised by `wait_closed` would propagate out of `remove_client` and `handle_client`. The registry change (delete and close) happens before that await, so the new state they promise is unaffected; only the normal return is assumed.
- Concurrency is not modelled. A pass is atomic, so no session registers or leaves in the middle of a broadcast.
- JSON encoding and decoding are opaque. `serialize` is a parameter, and the bot receives an already decoded snapshot.
- Logging is left out. It only has side effects.
- The random draws are inputs: `random.choices`, `random.randint`, `random.uniform` and `random.normalvariate`. The normal walk's change arrives already scaled.
- The event-loop clock is an input: the timestamp is part of `TickDraw`.
- Market.MarketServer.GenerateMarketData: `round(new_price, 2)` and floating point are not modelled. Prices are exact reals, and the drawn change already includes any rounding, so no price bound is claimed.
- Trading.BuyAveragePrice: the average price is an exact real here. In the source it is a Python float (trading_bot.py:62-66), so there the cost-basis identity and the between-bounds hold only up to rounding. For example, `(392.43*194 + 392.43*36)/230` evaluates to 392.42999999999995.
- Trading.BuyEffect: the recomputed average is exact, as for `Trading.BuyAveragePrice`. The float rounding of the source is not modelled.
- Trading.TradingBot.ProcessMarketData: Python's dict iteration order is the `keys` parameter. The model only requires that `keys` lists each snapshot key once.
- Market.MarketServer.BroadcastPass: the order over the copied keys is left open (`:|` choice). The contract holds for every order.
- Market.MarketServer.Send: a failed write appends nothing to that writer's stream. Bytes left half-written in the transport buffer are not modelled.
- Market.MarketServer.HandleClient: the connection has to end eventually, so the inbound events must contain a non-line event. The writer is fresh, so it has not been closed before. `str(peername)` arrives as a string.
- The bot's `connect_to_market` loop is not modelled. In the source, its `except Exception` ends the bot's session when a SELL raises. `main()` and the server's `start_server` are not modelled either.
- run_hft_simulation.py (process orchestration) and config.py (settings and directory creation) are not part of this model. The bot hardcodes 10 and 100 rather than reading the trade-size constants in config.py.
