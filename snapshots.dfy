/** The market-data table the server publishes and every bot reads. */
module Snapshots {

  /** One entry of the table: what the server says about a symbol on one tick.
      The price and the event-loop timestamp are kept abstract as reals. */
  datatype Quote = Quote(symbol: string, price: real, volume: int, timestamp: real)

  /** A whole tick: symbol -> quote. */
  type Snapshot = map<string, Quote>
}
