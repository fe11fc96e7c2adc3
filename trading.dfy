/** The per-bot position bookkeeping of a trading bot: one decision per symbol
    of each snapshot, and a private map from symbol to position.

    Every random draw the bot makes is an input here (`Draw`), and prices are
    exact reals. */
module Trading {
  import opened Snapshots

  /** The bounds of `random.randint(10, 100)` for a purchase; the floor is also
      the low end of the sell draw `random.randint(10, quantity)`. */
  const MinTradeQuantity := 10
  const MaxTradeQuantity := 100

  datatype Decision = Buy | Sell | Hold

  /** The draws one call of the strategy may consume: the weighted choice of a
      decision, the purchase size (read on BUY only) and the sell draw (read on
      SELL with a held quantity only). */
  datatype Draw = Draw(decision: Decision, tradeQuantity: int, sellQuantity: int)

  datatype Position = Position(avgPrice: real, quantity: int)

  /** The position created on the first reference to a known symbol. */
  const EmptyPosition := Position(0.0, 0)

  /** What a call returns, or the `ValueError` that `randint(10, quantity)`
      raises when 0 < quantity < 10. */
  datatype Outcome = Decided(action: Decision) | EmptySellRange(held: int)

  /** The result of one decision: its outcome and the whole new position map. */
  datatype Step = Step(outcome: Outcome, positions: map<string, Position>)

  /** The result of one pass over a snapshot: the outcomes in key order (a pass
      stops at the first raised error, which is then its last outcome) and the
      new position map. */
  datatype Pass = Pass(outcomes: seq<Outcome>, positions: map<string, Position>)

  predicate NonNegative(positions: map<string, Position>) {
    forall s :: s in positions ==> positions[s].quantity >= 0
  }

  function Current(positions: map<string, Position>, symbol: string): Position {
    if symbol in positions then positions[symbol] else EmptyPosition
  }

  function Held(positions: map<string, Position>, symbol: string): int {
    Current(positions, symbol).quantity
  }

  /** The ranges the random draws come from, given the quantity held. */
  predicate DrawInRange(d: Draw, held: int) {
    && (d.decision == Buy ==> MinTradeQuantity <= d.tradeQuantity <= MaxTradeQuantity)
    && (d.decision == Sell && held >= MinTradeQuantity ==> MinTradeQuantity <= d.sellQuantity <= held)
  }

  function Min(a: int, b: int): int {
    if a <= b then a else b
  }

  function RealMin(a: real, b: real): real {
    if a <= b then a else b
  }

  function RealMax(a: real, b: real): real {
    if a <= b then b else a
  }

  /** The position after buying `tradeQuantity` at `price`: the quantity grows and
      the average price is recomputed from the grown quantity. */
  function Bought(p: Position, price: real, tradeQuantity: int): Position
    requires p.quantity >= 0 && tradeQuantity > 0
  {
    var quantity := p.quantity + tradeQuantity;
    Position((p.avgPrice * (quantity - tradeQuantity) as real + price * tradeQuantity as real) / quantity as real,
             quantity)
  }

  /** The position after a sale: `min(quantity, draw)` leaves, the average stays. */
  function Sold(p: Position, sellDraw: int): Position {
    Position(p.avgPrice, p.quantity - Min(p.quantity, sellDraw))
  }

  /** One call of the strategy for `symbol` against the bot's current snapshot. */
  function Strategy(marketData: Snapshot, positions: map<string, Position>, symbol: string, d: Draw): Step
    requires NonNegative(positions)
    requires DrawInRange(d, Held(positions, symbol))
  {
    if symbol !in marketData then Step(Decided(Hold), positions)
    else
      var price := marketData[symbol].price;
      var current := Current(positions, symbol);
      var created := positions[symbol := current];
      match d.decision
      case Buy => Step(Decided(Buy), created[symbol := Bought(current, price, d.tradeQuantity)])
      case Sell =>
        if current.quantity > 0 then
          if current.quantity < MinTradeQuantity then Step(EmptySellRange(current.quantity), created)
          else Step(Decided(Sell), created[symbol := Sold(current, d.sellQuantity)])
        else Step(Decided(Hold), created)
      case Hold => Step(Decided(Hold), created)
  }

  /** A call touches no position but its own symbol's, creates that one only
      when the symbol is quoted, never drives a quantity below zero, and for a
      symbol missing from the snapshot is a HOLD that changes nothing. */
  lemma StrategyFrame(marketData: Snapshot, positions: map<string, Position>, symbol: string, d: Draw)
    requires NonNegative(positions) && DrawInRange(d, Held(positions, symbol))
    ensures var r := Strategy(marketData, positions, symbol, d);
      && NonNegative(r.positions)
      && (forall s :: s in positions && s != symbol ==> s in r.positions && r.positions[s] == positions[s])
      && (forall s :: s in r.positions ==> s in positions || s == symbol)
      && (symbol !in marketData ==> r == Step(Decided(Hold), positions))
      && (symbol in marketData ==> symbol in r.positions)
  {
  }

  /** BUY keeps the cost basis: the new average times the new quantity is the
      old cost plus the price paid. From an empty position the average is the
      price, and in general it lies between the old average and the price. */
  lemma BuyAveragePrice(p: Position, price: real, tradeQuantity: int)
    requires p.quantity >= 0 && tradeQuantity > 0
    ensures var r := Bought(p, price, tradeQuantity);
      && r.quantity == p.quantity + tradeQuantity
      && r.avgPrice * r.quantity as real == p.avgPrice * p.quantity as real + price * tradeQuantity as real
      && (p.quantity == 0 ==> r.avgPrice == price)
      && RealMin(p.avgPrice, price) <= r.avgPrice <= RealMax(p.avgPrice, price)
  {
    var r := Bought(p, price, tradeQuantity);
    var a, q, t, n := p.avgPrice, p.quantity as real, tradeQuantity as real, r.quantity as real;
    var m := r.avgPrice;
    assert n == q + t && n > 0.0 && q >= 0.0 && t > 0.0;
    assert m * n == a * q + price * t;
    assert a * n == a * q + a * t;
    assert price * n == price * q + price * t;
    assert m * n - a * n == t * price - t * a;
    assert price * n - m * n == q * price - q * a;
    assert (m - a) * n == m * n - a * n;
    assert (price - m) * n == price * n - m * n;
    if a <= price {
      assert t * price - t * a == t * (price - a) && q * price - q * a == q * (price - a);
      NonNegativeQuotient(m - a, n, t * (price - a));
      NonNegativeQuotient(price - m, n, q * (price - a));
    } else {
      assert (a - m) * n == -((m - a) * n) && (m - price) * n == -((price - m) * n);
      assert t * a - t * price == t * (a - price) && q * a - q * price == q * (a - price);
      NonNegativeQuotient(a - m, n, t * (a - price));
      NonNegativeQuotient(m - price, n, q * (a - price));
    }
  }

  lemma NonNegativeQuotient(x: real, n: real, y: real)
    requires n > 0.0 && y >= 0.0 && x * n == y
    ensures x >= 0.0
  {
  }

  /** The first call for a known symbol creates an empty position, even when
      the decision is not to buy. */
  lemma FirstReferenceCreates(marketData: Snapshot, positions: map<string, Position>, symbol: string, d: Draw)
    requires NonNegative(positions) && DrawInRange(d, Held(positions, symbol))
    requires symbol in marketData && symbol !in positions && d.decision != Buy
    ensures Strategy(marketData, positions, symbol, d) == Step(Decided(Hold), positions[symbol := EmptyPosition])
  {
  }

  /** BUY adds exactly the drawn quantity, between 10 and 100, and recomputes the
      quantity-weighted average price. */
  lemma BuyEffect(marketData: Snapshot, positions: map<string, Position>, symbol: string, d: Draw)
    requires NonNegative(positions) && DrawInRange(d, Held(positions, symbol))
    requires symbol in marketData && d.decision == Buy
    ensures var r := Strategy(marketData, positions, symbol, d);
            var was, now, price := Current(positions, symbol), r.positions[symbol], marketData[symbol].price;
      && r.outcome == Decided(Buy)
      && now.quantity == was.quantity + d.tradeQuantity
      && MinTradeQuantity <= now.quantity - was.quantity <= MaxTradeQuantity
      && now.avgPrice * now.quantity as real == was.avgPrice * was.quantity as real + price * d.tradeQuantity as real
      && (was.quantity == 0 ==> now.avgPrice == price)
      && RealMin(was.avgPrice, price) <= now.avgPrice <= RealMax(was.avgPrice, price)
  {
    var was, price := Current(positions, symbol), marketData[symbol].price;
    assert Strategy(marketData, positions, symbol, d).positions[symbol] == Bought(was, price, d.tradeQuantity);
    BuyAveragePrice(was, price, d.tradeQuantity);
  }

  /** SELL with nothing held is a HOLD; with fewer than ten held the sell draw
      raises; otherwise exactly the drawn quantity, between ten and all of the
      held quantity, leaves and the average price stays. */
  lemma SellEffect(marketData: Snapshot, positions: map<string, Position>, symbol: string, d: Draw)
    requires NonNegative(positions) && DrawInRange(d, Held(positions, symbol))
    requires symbol in marketData && d.decision == Sell
    ensures var r := Strategy(marketData, positions, symbol, d);
            var was, held := Current(positions, symbol), Held(positions, symbol);
      && (held == 0 ==> r == Step(Decided(Hold), positions[symbol := was]))
      && (0 < held < MinTradeQuantity ==> r == Step(EmptySellRange(held), positions[symbol := was]))
      && (held >= MinTradeQuantity ==>
            && r == Step(Decided(Sell), positions[symbol := Position(was.avgPrice, held - d.sellQuantity)])
            && r.positions[symbol].avgPrice == was.avgPrice
            && 0 <= r.positions[symbol].quantity
            && MinTradeQuantity <= held - r.positions[symbol].quantity <= held)
  {
  }

  /** HOLD changes nothing but the lazy creation of the position. */
  lemma HoldEffect(marketData: Snapshot, positions: map<string, Position>, symbol: string, d: Draw)
    requires NonNegative(positions) && DrawInRange(d, Held(positions, symbol))
    requires symbol in marketData && d.decision == Hold
    ensures Strategy(marketData, positions, symbol, d) == Step(Decided(Hold), positions[symbol := Current(positions, symbol)])
  {
  }

  /** The held quantity changes exactly when the call reports a trade. */
  lemma TradeIffQuantityChanges(marketData: Snapshot, positions: map<string, Position>, symbol: string, d: Draw)
    requires NonNegative(positions) && DrawInRange(d, Held(positions, symbol))
    ensures var r := Strategy(marketData, positions, symbol, d);
      (r.outcome == Decided(Buy) || r.outcome == Decided(Sell)) <==> Held(r.positions, symbol) != Held(positions, symbol)
  {
    if symbol in marketData {
      match d.decision
      case Buy => BuyEffect(marketData, positions, symbol, d);
      case Sell => SellEffect(marketData, positions, symbol, d);
      case Hold => HoldEffect(marketData, positions, symbol, d);
    }
  }

  /** The positions of the worked example: buy 50 at 100, buy 50 at 200, sell 30. */
  lemma WorkedExample()
    ensures var md := map["AAPL" := Quote("AAPL", 100.0, 1000, 0.0)];
            var md' := map["AAPL" := Quote("AAPL", 200.0, 1000, 0.0)];
            var s1 := Strategy(md, map[], "AAPL", Draw(Buy, 50, 0));
            var s2 := Strategy(md', s1.positions, "AAPL", Draw(Buy, 50, 0));
            var s3 := Strategy(md', s2.positions, "AAPL", Draw(Sell, 0, 30));
      && s1.positions["AAPL"] == Position(100.0, 50)
      && s2.positions["AAPL"] == Position(150.0, 100)
      && s3 == Step(Decided(Sell), map["AAPL" := Position(150.0, 70)])
  {
  }

  /** A quantity between one and nine is reachable (buy 15, sell 10), and a
      SELL drawn for it then raises instead of trading. */
  lemma ResidueRaises()
    ensures var md := map["AAPL" := Quote("AAPL", 100.0, 1000, 0.0)];
            var s1 := Strategy(md, map[], "AAPL", Draw(Buy, 15, 0));
            var s2 := Strategy(md, s1.positions, "AAPL", Draw(Sell, 0, 10));
            var s3 := Strategy(md, s2.positions, "AAPL", Draw(Sell, 0, 0));
      && s2 == Step(Decided(Sell), map["AAPL" := Position(100.0, 5)])
      && s3 == Step(EmptySellRange(5), s2.positions)
  {
  }

  /** The keys in `keys` are pairwise distinct. */
  predicate Distinct(keys: seq<string>) {
    forall i, j :: 0 <= i < j < |keys| ==> keys[i] != keys[j]
  }

  /** Every key's draw lies in its range for the quantity held before the pass. */
  predicate DrawsInRange(positions: map<string, Position>, keys: seq<string>, draws: seq<Draw>) {
    |draws| == |keys| && forall i :: 0 <= i < |keys| ==> DrawInRange(draws[i], Held(positions, keys[i]))
  }

  /** After deciding for the first key, the remaining draws still lie in their
      ranges: the decision touched no other key's position. */
  lemma DrawsInRangeAfterStep(marketData: Snapshot, positions: map<string, Position>, keys: seq<string>, draws: seq<Draw>)
    requires NonNegative(positions) && Distinct(keys) && DrawsInRange(positions, keys, draws) && keys != []
    ensures var after := Strategy(marketData, positions, keys[0], draws[0]).positions;
      NonNegative(after) && Distinct(keys[1..]) && DrawsInRange(after, keys[1..], draws[1..])
  {
    StrategyFrame(marketData, positions, keys[0], draws[0]);
    var after := Strategy(marketData, positions, keys[0], draws[0]).positions;
    forall i | 0 <= i < |keys| - 1
      ensures DrawInRange(draws[1..][i], Held(after, keys[1..][i]))
    {
      assert keys[1..][i] == keys[i + 1] != keys[0];
      assert DrawInRange(draws[i + 1], Held(positions, keys[i + 1]));
    }
  }

  /** One decision per key, in order, threading the position map; the first
      raised error ends the pass. */
  function Decisions(marketData: Snapshot, positions: map<string, Position>, keys: seq<string>, draws: seq<Draw>): Pass
    requires NonNegative(positions) && Distinct(keys) && DrawsInRange(positions, keys, draws)
    decreases |keys|
  {
    if keys == [] then Pass([], positions)
    else
      var step := Strategy(marketData, positions, keys[0], draws[0]);
      if step.outcome.EmptySellRange? then Pass([step.outcome], step.positions)
      else
        DrawsInRangeAfterStep(marketData, positions, keys, draws);
        var rest := Decisions(marketData, step.positions, keys[1..], draws[1..]);
        Pass([step.outcome] + rest.outcomes, rest.positions)
  }

  /** A pass decides at most once per key; it stops early only
      on a raised error, which is then its last outcome; and every quoted key it
      decided on has a position afterwards. */
  lemma {:induction false} DecisionsOutcomes(marketData: Snapshot, positions: map<string, Position>, keys: seq<string>, draws: seq<Draw>)
    requires NonNegative(positions) && Distinct(keys) && DrawsInRange(positions, keys, draws)
    ensures var r := Decisions(marketData, positions, keys, draws);
      && |r.outcomes| <= |keys|
      && (forall i :: 0 <= i < |r.outcomes| - 1 ==> r.outcomes[i].Decided?)
      && (|r.outcomes| < |keys| ==> |r.outcomes| > 0 && r.outcomes[|r.outcomes| - 1].EmptySellRange?)
      && (forall i :: 0 <= i < |r.outcomes| && keys[i] in marketData ==> keys[i] in r.positions)
    decreases |keys|
  {
    if keys != [] {
      var step := Strategy(marketData, positions, keys[0], draws[0]);
      StrategyFrame(marketData, positions, keys[0], draws[0]);
      if !step.outcome.EmptySellRange? {
        DrawsInRangeAfterStep(marketData, positions, keys, draws);
        DecisionsOutcomes(marketData, step.positions, keys[1..], draws[1..]);
        DecisionsPositions(marketData, step.positions, keys[1..], draws[1..]);
        var rest := Decisions(marketData, step.positions, keys[1..], draws[1..]);
        var r := Decisions(marketData, positions, keys, draws);
        assert r == Pass([step.outcome] + rest.outcomes, rest.positions);
        forall i | 0 <= i < |r.outcomes| && keys[i] in marketData
          ensures keys[i] in r.positions
        {
          if i > 0 {
            assert keys[i] == keys[1..][i - 1];
          } else {
            assert keys[0] !in keys[1..] by {
              forall j | 0 <= j < |keys| - 1 ensures keys[1..][j] != keys[0] {
                assert keys[1..][j] == keys[j + 1];
              }
            }
          }
        }
      }
    }
  }

  /** A pass keeps every quantity non-negative, leaves the positions of symbols
      it does not visit alone, and creates no position for a symbol outside the
      pass. */
  lemma {:induction false} DecisionsPositions(marketData: Snapshot, positions: map<string, Position>, keys: seq<string>, draws: seq<Draw>)
    requires NonNegative(positions) && Distinct(keys) && DrawsInRange(positions, keys, draws)
    ensures var r := Decisions(marketData, positions, keys, draws);
      && NonNegative(r.positions)
      && (forall s :: s in positions && s !in keys ==> s in r.positions && r.positions[s] == positions[s])
      && (forall s :: s in r.positions ==> s in positions || s in keys)
    decreases |keys|
  {
    if keys != [] {
      var step := Strategy(marketData, positions, keys[0], draws[0]);
      StrategyFrame(marketData, positions, keys[0], draws[0]);
      if !step.outcome.EmptySellRange? {
        DrawsInRangeAfterStep(marketData, positions, keys, draws);
        DecisionsPositions(marketData, step.positions, keys[1..], draws[1..]);
      }
    }
  }

  /** The two maps hold the same entry, or none, for `symbol`. */
  predicate SameEntry(p: map<string, Position>, q: map<string, Position>, symbol: string) {
    (symbol in p <==> symbol in q) && (symbol in p ==> p[symbol] == q[symbol])
  }

  /** A decision depends on the position map only through its own symbol's
      entry, and only that entry of the result is its own. */
  lemma StrategyLocal(marketData: Snapshot, p: map<string, Position>, q: map<string, Position>, symbol: string, d: Draw)
    requires NonNegative(p) && NonNegative(q) && SameEntry(p, q, symbol)
    requires DrawInRange(d, Held(p, symbol))
    ensures Held(q, symbol) == Held(p, symbol)
    ensures var rp, rq := Strategy(marketData, p, symbol, d), Strategy(marketData, q, symbol, d);
      rp.outcome == rq.outcome && SameEntry(rp.positions, rq.positions, symbol)
  {
  }

  /** Within a pass, every key the pass reaches gets exactly the outcome and the
      position its own decision would give from the positions before the pass,
      whatever was decided for the other keys; a key after the point where the
      pass stopped keeps its position. */
  lemma {:induction false} DecisionsPerKey(marketData: Snapshot, positions: map<string, Position>, keys: seq<string>, draws: seq<Draw>)
    requires NonNegative(positions) && Distinct(keys) && DrawsInRange(positions, keys, draws)
    ensures var r := Decisions(marketData, positions, keys, draws);
      forall i :: 0 <= i < |keys| ==>
        if i < |r.outcomes| then
          && r.outcomes[i] == Strategy(marketData, positions, keys[i], draws[i]).outcome
          && SameEntry(r.positions, Strategy(marketData, positions, keys[i], draws[i]).positions, keys[i])
        else SameEntry(r.positions, positions, keys[i])
    decreases |keys|
  {
    if keys != [] {
      var step := Strategy(marketData, positions, keys[0], draws[0]);
      StrategyFrame(marketData, positions, keys[0], draws[0]);
      var r := Decisions(marketData, positions, keys, draws);
      if step.outcome.EmptySellRange? {
        assert r == Pass([step.outcome], step.positions);
        forall i | 1 <= i < |keys| ensures SameEntry(r.positions, positions, keys[i]) {
          assert keys[i] != keys[0];
        }
      } else {
        DrawsInRangeAfterStep(marketData, positions, keys, draws);
        DecisionsPerKey(marketData, step.positions, keys[1..], draws[1..]);
        DecisionsPositions(marketData, step.positions, keys[1..], draws[1..]);
        var rest := Decisions(marketData, step.positions, keys[1..], draws[1..]);
        assert r == Pass([step.outcome] + rest.outcomes, rest.positions);
        assert keys[0] !in keys[1..] by {
          forall j | 0 <= j < |keys| - 1 ensures keys[1..][j] != keys[0] {
            assert keys[1..][j] == keys[j + 1];
          }
        }
        assert SameEntry(r.positions, step.positions, keys[0]);
        forall i | 1 <= i < |keys|
          ensures if i < |r.outcomes| then
              && r.outcomes[i] == Strategy(marketData, positions, keys[i], draws[i]).outcome
              && SameEntry(r.positions, Strategy(marketData, positions, keys[i], draws[i]).positions, keys[i])
            else SameEntry(r.positions, positions, keys[i])
        {
          assert keys[1..][i - 1] == keys[i] && draws[1..][i - 1] == draws[i];
          assert keys[i] != keys[0];
          assert SameEntry(step.positions, positions, keys[i]);
          assert i < |r.outcomes| ==> r.outcomes[i] == rest.outcomes[i - 1];
          StrategyLocal(marketData, positions, step.positions, keys[i], draws[i]);
        }
      }
    }
  }

  /** One step of `Decisions`: the first key's decision, then the rest of the pass. */
  lemma DecisionsUnfold(marketData: Snapshot, positions: map<string, Position>, keys: seq<string>, draws: seq<Draw>)
    requires NonNegative(positions) && Distinct(keys) && DrawsInRange(positions, keys, draws) && keys != []
    ensures var step := Strategy(marketData, positions, keys[0], draws[0]);
      && NonNegative(step.positions)
      && Distinct(keys[1..])
      && DrawsInRange(step.positions, keys[1..], draws[1..])
      && Decisions(marketData, positions, keys, draws)
         == if step.outcome.EmptySellRange? then Pass([step.outcome], step.positions)
            else var rest := Decisions(marketData, step.positions, keys[1..], draws[1..]);
                 Pass([step.outcome] + rest.outcomes, rest.positions)
  {
    DrawsInRangeAfterStep(marketData, positions, keys, draws);
  }

  /** The bot: its latest snapshot and its private positions. */
  class TradingBot {
    const botId: string
    var marketData: Snapshot
    var positions: map<string, Position>

    ghost predicate Valid()
      reads this
    {
      NonNegative(positions)
    }

    constructor (botId: string)
      ensures Valid()
      ensures this.botId == botId && marketData == map[] && positions == map[]
    {
      this.botId := botId;
      marketData := map[];
      positions := map[];
    }

    /** `get_trading_strategy`: decide for one symbol and update its position. */
    method GetTradingStrategy(symbol: string, d: Draw) returns (outcome: Outcome)
      requires Valid()
      requires DrawInRange(d, Held(positions, symbol))
      modifies this`positions
      ensures Valid()
      ensures Step(outcome, positions) == Strategy(marketData, old(positions), symbol, d)
    {
      if symbol !in marketData {
        return Decided(Hold);
      }
      var price := marketData[symbol].price;
      if symbol !in positions {
        positions := positions[symbol := EmptyPosition];
      }
      assert positions == old(positions)[symbol := Current(old(positions), symbol)];
      var current := positions[symbol];
      match d.decision
      case Buy =>
        var quantity := current.quantity + d.tradeQuantity;
        var avgPrice := (current.avgPrice * (quantity - d.tradeQuantity) as real + price * d.tradeQuantity as real)
                        / quantity as real;
        assert current == Current(old(positions), symbol) && current.quantity >= 0;
        assert Position(avgPrice, quantity) == Bought(current, price, d.tradeQuantity);
        positions := positions[symbol := Position(avgPrice, quantity)];
        outcome := Decided(Buy);
      case Sell =>
        if current.quantity > 0 {
          if current.quantity < MinTradeQuantity {
            return EmptySellRange(current.quantity);
          }
          var sellQuantity := Min(current.quantity, d.sellQuantity);
          positions := positions[symbol := current.(quantity := current.quantity - sellQuantity)];
          return Decided(Sell);
        }
        outcome := Decided(Hold);
        assert Step(outcome, positions) == Strategy(marketData, old(positions), symbol, d);
      case Hold =>
        outcome := Decided(Hold);
        assert Step(outcome, positions) == Strategy(marketData, old(positions), symbol, d);
    }

    /** `process_market_data`: replace the snapshot, then decide once per key in
        the snapshot's iteration order `keys`. An error raised by a decision
        leaves the loop, so it is the last outcome returned. */
    method ProcessMarketData(snapshot: Snapshot, keys: seq<string>, draws: seq<Draw>) returns (outcomes: seq<Outcome>)
      requires Valid()
      requires Distinct(keys) && forall s :: s in snapshot <==> s in keys
      requires DrawsInRange(positions, keys, draws)
      modifies this
      ensures Valid() && marketData == snapshot
      ensures Pass(outcomes, positions) == Decisions(snapshot, old(positions), keys, draws)
    {
      marketData := snapshot;
      outcomes := [];
      var i := 0;
      while i < |keys|
        invariant 0 <= i <= |keys|
        invariant Valid() && marketData == snapshot
        invariant Distinct(keys[i..]) && DrawsInRange(positions, keys[i..], draws[i..])
        invariant Decisions(snapshot, old(positions), keys, draws)
               == var rest := Decisions(snapshot, positions, keys[i..], draws[i..]);
                  Pass(outcomes + rest.outcomes, rest.positions)
      {
        ghost var before, todo, todoDraws := positions, keys[i..], draws[i..];
        assert todo[0] == keys[i] && todoDraws[0] == draws[i];
        assert todo[1..] == keys[i + 1..] && todoDraws[1..] == draws[i + 1..];
        DecisionsUnfold(snapshot, before, todo, todoDraws);
        var outcome := GetTradingStrategy(keys[i], draws[i]);
        if outcome.EmptySellRange? {
          outcomes := outcomes + [outcome];
          return;
        }
        ghost var tail := Decisions(snapshot, positions, keys[i + 1..], draws[i + 1..]);
        assert outcomes + ([outcome] + tail.outcomes) == (outcomes + [outcome]) + tail.outcomes;
        outcomes := outcomes + [outcome];
        i := i + 1;
      }
      assert keys[i..] == [] && draws[i..] == [];
    }
  }
}
