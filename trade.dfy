/** The record normalizer: one upstream item to one trade record (script.py, parse_trade_item). */
module Trade {
  import opened Values

  /** An absolute instant, counted in nanoseconds since the Unix epoch. */
  datatype Instant = Instant(nanos: int)

  /** dateutil's ISO-8601 parser is a foreign call: it yields an instant or raises. */
  type IsoParser = Value -> Option<Instant>

  /** The dict parse_trade_item builds. Symbol, price and volume are passed on
      exactly as decoded; nothing checks their type or sign. */
  datatype TradeRecord = TradeRecord(symbol: Value, price: Value, volume: Value, timestamp: Instant)

  /** Why parse_trade_item raised: a KeyError on a required key, or the parser's error. */
  datatype ParseError = MissingKey(key: string) | BadTimestamp

  datatype Result<+T> = Ok(value: T) | Err(error: ParseError)

  /** The discriminator value that marks a trade item. */
  const TradeTag: string := "t"

  /** The volume used when an item carries no size. */
  const DefaultVolume: Value := Int(0)

  /** `item.get("T") == "t"` on a decoded object. */
  predicate IsTrade(item: map<string, Value>)
    ensures IsTrade(item) <==> "T" in item && item["T"] == Str(TradeTag)
  {
    Get(item, "T", Null) == Str(TradeTag)
  }

  /** parse_trade_item. The dict display is evaluated key by key, so the first
      missing key among S, p and t is the one reported; the size lookup never
      fails, and the parser runs last. */
  function ParseTradeItem(item: map<string, Value>, isoparse: IsoParser): (r: Result<TradeRecord>)
    ensures r.Ok? <==> "S" in item && "p" in item && "t" in item && isoparse(item["t"]).Some?
    ensures r == Err(MissingKey("S")) <==> "S" !in item
    ensures r == Err(MissingKey("p")) <==> "S" in item && "p" !in item
    ensures r == Err(MissingKey("t")) <==> "S" in item && "p" in item && "t" !in item
    ensures r == Err(BadTimestamp) <==> "S" in item && "p" in item && "t" in item && isoparse(item["t"]).None?
    ensures r.Ok? ==> r.value.symbol == item["S"] && r.value.price == item["p"]
    ensures r.Ok? ==> r.value.timestamp == isoparse(item["t"]).value
    ensures r.Ok? ==> r.value.volume == (if "s" in item then item["s"] else DefaultVolume)
  {
    if "S" !in item then Err(MissingKey("S"))
    else if "p" !in item then Err(MissingKey("p"))
    else if "t" !in item then Err(MissingKey("t"))
    else
      match isoparse(item["t"])
      case None => Err(BadTimestamp)
      case Some(ts) => Ok(TradeRecord(item["S"], item["p"], Get(item, "s", DefaultVolume), ts))
  }

  /** What the per-item body of on_message does with one item of a frame. */
  datatype Disposition =
    | Uncaught                       // not an object: `item.get` raises outside the try
    | Skipped                        // an object whose discriminator is not the trade tag
    | Malformed(error: ParseError)   // a trade item parse_trade_item rejects; caught and logged
    | Normalized(record: TradeRecord)

  function Classify(item: Value, isoparse: IsoParser): (d: Disposition)
    ensures d.Uncaught? <==> !item.Obj?
    ensures d.Skipped? <==> item.Obj? && !IsTrade(item.fields)
    ensures d.Malformed? <==> item.Obj? && IsTrade(item.fields) && ParseTradeItem(item.fields, isoparse).Err?
    ensures d.Normalized? ==> item.Obj? && ParseTradeItem(item.fields, isoparse) == Ok(d.record)
  {
    match item
    case Obj(fields) =>
      if !IsTrade(fields) then Skipped
      else (match ParseTradeItem(fields, isoparse)
            case Err(e) => Malformed(e)
            case Ok(rec) => Normalized(rec))
    case _ => Uncaught
  }

  /** A trade item with the three required keys and a parseable time yields
      exactly the mapped fields. */
  lemma NormalizedFields(item: map<string, Value>, isoparse: IsoParser, ts: Instant)
    requires IsTrade(item) && "S" in item && "p" in item && "t" in item
    requires isoparse(item["t"]) == Some(ts)
    ensures Classify(Obj(item), isoparse)
         == Normalized(TradeRecord(item["S"], item["p"], Get(item, "s", DefaultVolume), ts))
  {
  }
}
