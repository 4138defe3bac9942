/**
 * The per-record decision of the extraction job (whale_etl.py, the body of
 * the inner loop of `process_recent_files`): parse price and quantity,
 * keep the trade when its notional value reaches the threshold, and
 * normalise it into a whale trade.
 */
module WhaleFilter {
  import opened Wrappers

  const Threshold: real := 50000.0
  const DefaultSymbol := "BTCUSDT"

  /**
   * One element of a decoded raw segment, seen through the lookups the job makes.
   * `price` and `qty` are `float(trade["price"])` and `float(trade["qty"])`:
   * None when the key is missing, the element is not an object, or the value
   * does not parse. `isBuyerMaker` is Some(its truthiness) when the key is
   * present. `time` is None when the key is missing or its value is null or not a number
   * (`trade["time"] / 1000.0` raises in both cases).
   */
  datatype Record = Record(
    price: Option<real>,
    qty: Option<real>,
    isBuyerMaker: Option<bool>,
    time: Option<int>,
    symbol: Option<string>)

  /** A normalised whale trade; `tradeTimeMs` is the raw `time` the ISO timestamp is rendered from. */
  datatype WhaleTrade = WhaleTrade(
    symbol: string,
    price: real,
    quantity: real,
    valueUsd: real,
    side: string,
    tradeTimeMs: int)

  /**
   * What the job does with one record: skip it (price or quantity unusable),
   * drop it (below the threshold), emit a whale, or raise because a whale has
   * no `time` (the lookup is outside the try).
   */
  datatype Verdict = Unparsable | BelowThreshold | Whale(trade: WhaleTrade) | MissingTime

  /** `"SELL" if trade.get("isBuyerMaker") else "BUY"` */
  function SideOf(isBuyerMaker: Option<bool>): (side: string)
    ensures side == "SELL" || side == "BUY"
    ensures side == "SELL" <==> isBuyerMaker == Some(true)
  {
    if isBuyerMaker == Some(true) then "SELL" else "BUY"
  }

  /** `trade.get("symbol", "BTCUSDT")` */
  function SymbolOf(symbol: Option<string>): (s: string)
    ensures symbol.Some? ==> s == symbol.value
    ensures symbol.None? ==> s == "BTCUSDT"
  {
    match symbol
    case Some(s) => s
    case None => DefaultSymbol
  }

  /** Every emitted whale is worth its price times its quantity, at least 50000, and is a BUY or a SELL. */
  function Classify(r: Record): (v: Verdict)
    ensures v.Whale? ==> v.trade.valueUsd == v.trade.price * v.trade.quantity >= Threshold
    ensures v.Whale? ==> v.trade.side == "SELL" || v.trade.side == "BUY"
  {
    if r.price.None? || r.qty.None? then Unparsable
    else
      var value := r.price.value * r.qty.value;
      if !(value >= Threshold) then BelowThreshold
      else if r.time.None? then MissingTime
      else Whale(WhaleTrade(SymbolOf(r.symbol), r.price.value, r.qty.value, value, SideOf(r.isBuyerMaker), r.time.value))
  }

  /** A record becomes a whale exactly when price and quantity parse, their product reaches 50000 (inclusive), and it has a time. */
  lemma WhaleIff(r: Record)
    ensures Classify(r).Whale? <==>
      r.price.Some? && r.qty.Some? && r.price.value * r.qty.value >= Threshold && r.time.Some?
    ensures Classify(r).MissingTime? <==>
      r.price.Some? && r.qty.Some? && r.price.value * r.qty.value >= Threshold && r.time.None?
    ensures Classify(r).Unparsable? <==> r.price.None? || r.qty.None?
  {
  }

  /** The fields of an emitted whale: the parsed inputs, their product, the side and symbol rules. */
  lemma WhaleFields(r: Record)
    requires Classify(r).Whale?
    ensures var w := Classify(r).trade;
      w.price == r.price.value && w.quantity == r.qty.value
      && w.valueUsd == w.price * w.quantity && w.valueUsd >= Threshold
      && (w.side == "SELL" <==> r.isBuyerMaker == Some(true))
      && (w.side == "BUY" <==> r.isBuyerMaker != Some(true))
      && (r.symbol.Some? ==> w.symbol == r.symbol.value)
      && (r.symbol.None? ==> w.symbol == "BTCUSDT")
      && w.tradeTimeMs == r.time.value
  {
  }

  /** Worked cases: 30000 x 2 is a BUY or SELL whale by the maker flag; exactly 50000 counts; 100 x 1 does not. */
  lemma ThresholdExamples(t: int)
    ensures Classify(Record(Some(30000.0), Some(2.0), Some(false), Some(t), None))
      == Whale(WhaleTrade("BTCUSDT", 30000.0, 2.0, 60000.0, "BUY", t))
    ensures Classify(Record(Some(30000.0), Some(2.0), Some(true), Some(t), Some("BTCUSDT"))).trade.side == "SELL"
    ensures Classify(Record(Some(25000.0), Some(2.0), None, Some(t), None)).Whale?
    ensures Classify(Record(Some(100.0), Some(1.0), Some(false), Some(t), None)) == BelowThreshold
  {
  }
}
