/** The market server: the table of the latest quote per symbol, the registry
    of connected clients, and one pass of the broadcast loop.

    A client's stream writer is an opaque handle compared by identity. What the
    network does with a write is an input: the set of writers whose write
    fails. The lines each writer has accepted, and the `close()` calls issued on
    it, are kept as state so that contracts can speak about them. */
module Market {
  import opened Snapshots

  /** An `asyncio.StreamWriter`, known only by its identity. */
  type Writer(==, !new)

  /** The fixed symbols the server quotes, in the order it regenerates them. */
  const Symbols: seq<string> := ["AAPL", "GOOGL", "MSFT", "AMZN", "TSLA"]
  const SymbolSet: set<string> := set s | s in Symbols

  /** The bounds of `random.randint(1000, 100000)` for a volume and of
      `random.uniform(50, 500)` for a first price. */
  const MinVolume := 1000
  const MaxVolume := 100000
  const MinSeedPrice := 50.0
  const MaxSeedPrice := 500.0

  /** The draws one symbol consumes per tick: the uniform seed price (drawn on
      every tick, used only when the symbol has no price yet), the price change
      (already scaled and rounded), the volume, and the event-loop time. */
  datatype TickDraw = TickDraw(seed: real, change: real, volume: int, timestamp: real)

  predicate TickDrawInRange(d: TickDraw) {
    MinSeedPrice <= d.seed <= MaxSeedPrice && MinVolume <= d.volume <= MaxVolume
  }

  /** What a client's `readline()` gives the handler. */
  datatype ReadResult = Line(data: string) | Eof | Cancelled | Failed

  /** Every entry is filed under its own symbol and has a volume in range. */
  predicate WellFormed(data: Snapshot) {
    forall k :: k in data ==> data[k].symbol == k && MinVolume <= data[k].volume <= MaxVolume
  }

  /** The price a symbol's walk continues from. */
  function PreviousPrice(data: Snapshot, symbol: string, seed: real): real {
    if symbol in data then data[symbol].price else seed
  }

  /** The new entry for `symbol`. */
  function Quoted(data: Snapshot, symbol: string, d: TickDraw): Quote {
    Quote(symbol, PreviousPrice(data, symbol, d.seed) + d.change, d.volume, d.timestamp)
  }

  lemma SymbolsDistinct()
    ensures forall i, j :: 0 <= i < j < |Symbols| ==> Symbols[i] != Symbols[j]
  {
  }

  /** The table after the first `n` symbols have been regenerated. */
  function Regenerated(data: Snapshot, draws: seq<TickDraw>, n: nat): Snapshot
    requires n <= |Symbols| == |draws|
  {
    if n == 0 then data
    else Regenerated(data, draws, n - 1)[Symbols[n - 1] := Quoted(data, Symbols[n - 1], draws[n - 1])]
  }

  /** After the first `n` symbols, exactly those symbols have been added to
      the table's keys. */
  lemma {:induction false} RegeneratedKeysSoFar(data: Snapshot, draws: seq<TickDraw>, n: nat)
    requires n <= |Symbols| == |draws|
    ensures Regenerated(data, draws, n).Keys == data.Keys + (set i | 0 <= i < n :: Symbols[i])
  {
    if n > 0 {
      RegeneratedKeysSoFar(data, draws, n - 1);
      assert (set i | 0 <= i < n :: Symbols[i]) == (set i | 0 <= i < n - 1 :: Symbols[i]) + {Symbols[n - 1]};
    }
  }

  /** Each of the first `n` symbols is quoted from the table as it was before
      the pass. */
  lemma {:induction false} RegeneratedQuotes(data: Snapshot, draws: seq<TickDraw>, n: nat)
    requires n <= |Symbols| == |draws|
    ensures forall i :: 0 <= i < n ==>
      Symbols[i] in Regenerated(data, draws, n) && Regenerated(data, draws, n)[Symbols[i]] == Quoted(data, Symbols[i], draws[i])
  {
    if n > 0 {
      RegeneratedQuotes(data, draws, n - 1);
    }
  }

  /** An entry whose key is not among the first `n` symbols is untouched. */
  lemma {:induction false} RegeneratedUntouched(data: Snapshot, draws: seq<TickDraw>, n: nat, k: string)
    requires n <= |Symbols| == |draws|
    requires k in data && k !in Symbols[..n]
    ensures k in Regenerated(data, draws, n) && Regenerated(data, draws, n)[k] == data[k]
  {
    if n > 0 {
      assert Symbols[..n] == Symbols[..n - 1] + [Symbols[n - 1]];
      RegeneratedUntouched(data, draws, n - 1, k);
    }
  }

  /** The `n`-th symbol's entry is still the original one after the first `n`
      symbols have been regenerated. */
  lemma NotYetRegenerated(data: Snapshot, draws: seq<TickDraw>, n: nat)
    requires n < |Symbols| == |draws|
    ensures var r := Regenerated(data, draws, n);
      && (Symbols[n] in r <==> Symbols[n] in data)
      && (Symbols[n] in data ==> r[Symbols[n]] == data[Symbols[n]])
  {
    RegeneratedKeysSoFar(data, draws, n);
    SymbolsDistinct();
    assert Symbols[n] !in Symbols[..n];
    assert Symbols[n] !in set i | 0 <= i < n :: Symbols[i];
    if Symbols[n] in data {
      RegeneratedUntouched(data, draws, n, Symbols[n]);
    }
  }

  /** A full regeneration quotes every fixed symbol and nothing else, each entry
      under its own key with its drawn volume and time, its price moved by the
      drawn change from the symbol's previous price, or from the seed draw for a
      symbol that had none. */
  lemma RegeneratedComplete(data: Snapshot, draws: seq<TickDraw>)
    requires |draws| == |Symbols| && forall i :: 0 <= i < |draws| ==> TickDrawInRange(draws[i])
    requires data.Keys <= SymbolSet
    ensures var r := Regenerated(data, draws, |Symbols|);
      && r.Keys == SymbolSet
      && WellFormed(r)
      && forall i :: 0 <= i < |Symbols| ==>
        && r[Symbols[i]].volume == draws[i].volume
        && r[Symbols[i]].timestamp == draws[i].timestamp
        && r[Symbols[i]].price
           == (if Symbols[i] in data then data[Symbols[i]].price else draws[i].seed) + draws[i].change
  {
    var r := Regenerated(data, draws, |Symbols|);
    RegeneratedKeysSoFar(data, draws, |Symbols|);
    RegeneratedQuotes(data, draws, |Symbols|);
    SymbolIndices();
    forall k | k in r ensures r[k].symbol == k && MinVolume <= r[k].volume <= MaxVolume {
      assert k in SymbolSet;
      var i :| 0 <= i < |Symbols| && Symbols[i] == k;
      assert r[Symbols[i]] == Quoted(data, Symbols[i], draws[i]);
    }
  }

  /** Regenerating the next symbol continues from the price it had before the
      pass. */
  lemma RegenerateStep(data: Snapshot, draws: seq<TickDraw>, n: nat)
    requires n < |Symbols| == |draws|
    ensures var r := Regenerated(data, draws, n);
      Regenerated(data, draws, n + 1)
      == r[Symbols[n] := Quoted(data, Symbols[n], draws[n])]
      && PreviousPrice(r, Symbols[n], draws[n].seed) == PreviousPrice(data, Symbols[n], draws[n].seed)
  {
    NotYetRegenerated(data, draws, n);
  }

  lemma RegeneratedKeys(data: Snapshot, draws: seq<TickDraw>)
    requires |draws| == |Symbols| && data.Keys <= SymbolSet
    ensures Regenerated(data, draws, |Symbols|).Keys == SymbolSet
  {
    RegeneratedKeysSoFar(data, draws, |Symbols|);
    SymbolIndices();
  }

  lemma SymbolIndices()
    ensures (set i | 0 <= i < |Symbols| :: Symbols[i]) == SymbolSet
  {
    forall s | s in SymbolSet ensures s in set i | 0 <= i < |Symbols| :: Symbols[i] {
      var i :| 0 <= i < |Symbols| && Symbols[i] == s;
    }
  }

  /** The lines writer `w` has accepted so far. */
  function StreamOf(streams: map<Writer, seq<string>>, w: Writer): seq<string> {
    if w in streams then streams[w] else []
  }

  /** Every writer in `targets` accepts `line` after what it already had; every
      other writer's stream is as it was. */
  function Delivered(streams: map<Writer, seq<string>>, targets: set<Writer>, line: string): map<Writer, seq<string>> {
    map w | w in streams.Keys + targets :: if w in targets then StreamOf(streams, w) + [line] else streams[w]
  }

  /** The registry (writer -> peer name) together with what the transports have
      seen: the writers that have been closed and the lines each accepted. */
  datatype Sessions = Sessions(clients: map<Writer, string>, closed: set<Writer>, streams: map<Writer, seq<string>>)

  /** No registered writer has been closed. */
  predicate Live(s: Sessions) {
    forall w :: w in s.clients ==> w !in s.closed
  }

  /** The registration step of `handle_client`. */
  function Registered(s: Sessions, w: Writer, peer: string): Sessions {
    s.(clients := s.clients[w := peer])
  }

  /** `remove_client`: a registered writer is dropped from the registry and
      closed; for any other writer nothing happens. */
  function Removed(s: Sessions, w: Writer): Sessions {
    if w in s.clients then Sessions(s.clients - {w}, s.closed + {w}, s.streams) else s
  }

  /** A pass of the broadcast after the writers in `done` have been visited:
      the failing ones among them are removed and closed, the others have
      accepted `line`. */
  function Visited(s: Sessions, done: set<Writer>, failing: set<Writer>, line: string): Sessions {
    Sessions(s.clients - (done * failing), s.closed + done * failing, Delivered(s.streams, done - failing, line))
  }

  /** A whole pass of the broadcast over the writers registered at its start. */
  function Broadcast(s: Sessions, failing: set<Writer>, line: string): Sessions {
    Visited(s, s.clients.Keys, failing, line)
  }

  /** After a pass, the registered writers whose write failed are gone from
      the registry and closed; every other writer registered at the start is
      still registered and has accepted the line after everything it had;
      nobody else's stream moves. From a live registry, no writer the pass
      closes had been closed before, and the registry stays live. */
  lemma BroadcastEffect(s: Sessions, failing: set<Writer>, line: string)
    ensures var r := Broadcast(s, failing, line);
      && r.clients == s.clients - failing
      && (forall w :: w in s.clients && w !in failing ==> StreamOf(r.streams, w) == StreamOf(s.streams, w) + [line])
      && (forall w :: w !in s.clients || w in failing ==> StreamOf(r.streams, w) == StreamOf(s.streams, w))
      && r.closed == s.closed + (s.clients.Keys * failing)
      && (Live(s) ==> s.closed !! (s.clients.Keys * failing) && Live(r))
  {
    var r := Broadcast(s, failing, line);
    PassEnds(s.clients, failing);
    forall w ensures StreamOf(r.streams, w) == if w in s.clients && w !in failing then StreamOf(s.streams, w) + [line] else StreamOf(s.streams, w) {
      DeliveredStream(s.streams, s.clients.Keys - failing, line, w);
    }
  }

  /** A delivery appends the line to exactly the targets' streams. */
  lemma DeliveredStream(streams: map<Writer, seq<string>>, targets: set<Writer>, line: string, w: Writer)
    ensures StreamOf(Delivered(streams, targets, line), w)
         == if w in targets then StreamOf(streams, w) + [line] else StreamOf(streams, w)
  {
  }

  /** Registering files the writer under its peer name and changes no other
      registration, no close and no stream. */
  lemma RegisterEffect(s: Sessions, w: Writer, peer: string)
    ensures var r := Registered(s, w, peer);
      && w in r.clients && r.clients[w] == peer
      && r.clients.Keys == s.clients.Keys + {w}
      && (forall v :: v in s.clients && v != w ==> r.clients[v] == s.clients[v])
      && r.closed == s.closed && r.streams == s.streams
      && (Live(s) && w !in s.closed ==> Live(r))
  {
  }

  /** Removing a writer twice is the same as removing it once. */
  lemma RemoveIdempotent(s: Sessions, w: Writer)
    ensures Removed(Removed(s, w), w) == Removed(s, w)
  {
  }

  /** Removing a writer drops exactly that registration and closes it at most
      once; removing an absent writer changes nothing. Every other registration
      and every stream is kept, and the registry stays live. */
  lemma RemoveEffect(s: Sessions, w: Writer)
    ensures var r := Removed(s, w);
      && r.clients == s.clients - {w}
      && (w !in s.clients ==> r == s)
      && w !in r.clients
      && (forall v :: v in s.clients && v != w ==> v in r.clients && r.clients[v] == s.clients[v])
      && r.closed == (if w in s.clients then s.closed + {w} else s.closed)
      && r.streams == s.streams
      && (Live(s) ==> Live(r))
  {
  }

  /** A session handler, whatever ends its read loop, leaves the registry as it
      found it except that its own writer is gone and has been closed. */
  lemma HandlerLeavesNoTrace(s: Sessions, w: Writer, peer: string)
    requires Live(s) && w !in s.closed
    ensures var r := Removed(Registered(s, w, peer), w);
      && r == Sessions(s.clients - {w}, s.closed + {w}, s.streams)
      && Live(r)
  {
  }

  lemma PassStarts(s: Sessions, failing: set<Writer>, line: string)
    ensures Visited(s, {}, failing, line) == s
  {
    assert {} - failing == {};
    assert s.clients - ({} * failing) == s.clients;
  }

  lemma PassEnds(clients: map<Writer, string>, failing: set<Writer>)
    ensures clients - (clients.Keys * failing) == clients - failing
  {
  }

  /** Visiting one more writer: a failing one is removed, any other accepts the
      line. */
  lemma VisitOne(s: Sessions, done: set<Writer>, failing: set<Writer>, w: Writer, line: string)
    requires w in s.clients && w !in done
    ensures var v := Visited(s, done, failing, line);
      && w in v.clients
      && Visited(s, done + {w}, failing, line)
         == if w in failing then Removed(v, w)
            else v.(streams := v.streams[w := StreamOf(v.streams, w) + [line]])
  {
    var v := Visited(s, done, failing, line);
    if w in failing {
      assert (done + {w}) * failing == done * failing + {w};
      assert (done + {w}) - failing == done - failing;
      assert s.clients - ((done + {w}) * failing) == v.clients - {w};
    } else {
      assert (done + {w}) * failing == done * failing;
      assert (done + {w}) - failing == (done - failing) + {w};
      DeliveredStream(s.streams, done - failing, line, w);
    }
  }

  class MarketServer {
    var clients: map<Writer, string>
    var marketData: Snapshot
    /** The writers on which `close()` has been called. */
    var closed: set<Writer>
    /** The lines each writer has accepted, in order. */
    var streams: map<Writer, seq<string>>

    function State(): Sessions
      reads this`clients, this`closed, this`streams
    {
      Sessions(clients, closed, streams)
    }

    /** The table only holds the fixed symbols. */
    ghost predicate Quoting()
      reads this`marketData
    {
      marketData.Keys <= SymbolSet
    }

    /** The table only holds the fixed symbols, each filed under its own name
        with a volume in range, and no registered writer has been closed. */
    ghost predicate Valid()
      reads this
    {
      Quoting() && WellFormed(marketData) && Live(State())
    }

    constructor ()
      ensures Valid()
      ensures clients == map[] && marketData == map[] && closed == {} && streams == map[]
    {
      clients := map[];
      marketData := map[];
      closed := {};
      streams := map[];
    }

    /** `generate_market_data`: a new quote for every fixed symbol, continuing
        its walk from the previous price or from the seed draw. */
    method GenerateMarketData(draws: seq<TickDraw>)
      requires Quoting()
      requires |draws| == |Symbols| && forall i :: 0 <= i < |draws| ==> TickDrawInRange(draws[i])
      modifies this`marketData
      ensures marketData.Keys == SymbolSet && WellFormed(marketData)
      ensures marketData == Regenerated(old(marketData), draws, |Symbols|)
    {
      var i := 0;
      while i < |Symbols|
        invariant 0 <= i <= |Symbols|
        invariant marketData == Regenerated(old(marketData), draws, i)
      {
        var symbol := Symbols[i];
        RegenerateStep(old(marketData), draws, i);
        var lastPrice := if symbol in marketData then marketData[symbol].price else draws[i].seed;
        marketData := marketData[symbol := Quote(symbol, lastPrice + draws[i].change, draws[i].volume, draws[i].timestamp)];
        i := i + 1;
      }
      RegeneratedComplete(old(marketData), draws);
    }

    /** The registration step of `handle_client`: the writer is filed under its
        peer name. */
    method Register(w: Writer, peer: string)
      modifies this`clients
      ensures State() == Registered(old(State()), w, peer)
      ensures old(Valid()) && w !in closed ==> Valid()
    {
      clients := clients[w := peer];
    }

    /** `remove_client`. */
    method RemoveClient(w: Writer)
      modifies this`clients, this`closed
      ensures State() == Removed(old(State()), w)
      ensures old(Valid()) ==> Valid()
    {
      if w in clients {
        clients := clients - {w};
        closed := closed + {w};
      }
    }

    /** `handle_client`: register, read lines until the stream ends, is
        cancelled or fails, then remove the writer on every one of those exits.
        Returns how many lines were read and what ended the loop. */
    method HandleClient(w: Writer, peer: string, inbound: seq<ReadResult>) returns (linesRead: nat, exit: ReadResult)
      requires Valid() && w !in closed
      requires exists k :: 0 <= k < |inbound| && !inbound[k].Line?
      modifies this`clients, this`closed
      ensures Valid()
      ensures State() == Removed(Registered(old(State()), w, peer), w)
      ensures linesRead < |inbound| && exit == inbound[linesRead] && !exit.Line?
      ensures forall j :: 0 <= j < linesRead ==> inbound[j].Line?
    {
      Register(w, peer);
      linesRead := 0;
      while inbound[linesRead].Line?
        invariant 0 <= linesRead < |inbound|
        invariant forall j :: 0 <= j < linesRead ==> inbound[j].Line?
        decreases |inbound| - linesRead
      {
        linesRead := linesRead + 1;
      }
      exit := inbound[linesRead];
      RemoveClient(w);
      HandlerLeavesNoTrace(old(State()), w, peer);
    }

    /** The body of the broadcast loop for one writer of the pass that started
        in `start`, after the writers in `done`: the write either succeeds and
        the writer's stream gains the line, or fails and the writer is removed. */
    method Send(w: Writer, failing: set<Writer>, line: string, ghost start: Sessions, ghost done: set<Writer>)
      requires w in start.clients && w !in done
      requires State() == Visited(start, done, failing, line)
      modifies this`clients, this`closed, this`streams
      ensures State() == Visited(start, done + {w}, failing, line)
    {
      VisitOne(start, done, failing, w, line);
      if w in failing {
        RemoveClient(w);
      } else {
        streams := streams[w := StreamOf(streams, w) + [line]];
      }
    }

    /** One pass of `broadcast_market_data` over a copy of the registered
        writers (taken in any order): every writer is sent the same line; a
        writer whose write fails is removed and closed, and the pass goes on
        with the others. Removing a writer is taken to return normally. */
    method BroadcastPass(failing: set<Writer>, line: string)
      requires Valid()
      modifies this`clients, this`closed, this`streams
      ensures Valid()
      ensures State() == Broadcast(old(State()), failing, line)
    {
      ghost var start := State();
      ghost var done: set<Writer> := {};
      var pending := clients.Keys;
      PassStarts(start, failing, line);
      while pending != {}
        invariant pending + done == start.clients.Keys && pending !! done
        invariant State() == Visited(start, done, failing, line)
        decreases pending
      {
        var w :| w in pending;
        Send(w, failing, line, start, done);
        done := done + {w};
        pending := pending - {w};
      }
      assert done == start.clients.Keys;
      BroadcastEffect(start, failing, line);
    }

    /** One iteration of the broadcast loop: regenerate the table, serialise it
        once, and push that line to every registered writer. */
    method BroadcastTick(draws: seq<TickDraw>, serialize: Snapshot -> string, failing: set<Writer>)
      requires Valid()
      requires |draws| == |Symbols| && forall i :: 0 <= i < |draws| ==> TickDrawInRange(draws[i])
      modifies this
      ensures Valid()
      ensures marketData == Regenerated(old(marketData), draws, |Symbols|) && marketData.Keys == SymbolSet
      ensures State() == Broadcast(old(State()), failing, serialize(marketData) + "\n")
    {
      GenerateMarketData(draws);
      assert Valid();
      var update := serialize(marketData);
      BroadcastPass(failing, update + "\n");
    }
  }
}
