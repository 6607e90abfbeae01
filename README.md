# Trade-feed ingestion, modelled in Dafny

This project models the per-frame ingestion path of a small service that
streams stock trades over a WebSocket and stores them as InfluxDB points
(`script.py`). It covers four parts:

- **the record normalizer** (`parse_trade_item`): a decoded upstream item becomes a trade record.
- **the frame loop** (`on_message`): the items of one decoded frame are walked in order. Only trade items (`"T" == "t"`) are normalized and written. A failure to normalize or to write is caught per item.
- **point construction** (`write_to_influx`): one point per record. The measurement is `stock_trades`, the tag is `symbol`, the fields are `price` and `volume`, and the time is the record's own timestamp at nanosecond precision.
- **the handshake** (`on_open`): an auth message, then a subscribe message for `AAPL` and `TSLA`.

Modules, one per component:

- `values.dfy`, module `Values`: decoded JSON values (`Value`) and `Option`.
- `trade.dfy`, module `Trade`:
  - `Instant` and `TradeRecord`.
  - `ParseTradeItem`, which returns a `Result` whose error says which `KeyError` was raised or that the time did not parse.
  - `Classify`, which says what the loop body does with one item.
- `influx.dfy`, module `Influx`:
  - `Point`, `ToPoint` and its inverse `RecordOf`.
  - The store's write interface as a class `Sink` holding `points: seq<Point>`, the log of accepted writes, and a ghost log `attempts` of every point handed to the store. Its `Write` always logs the attempt, and either appends exactly that point to `points` or fails.
- `ingest.dfy`, module `Ingest`: the frame loop `OnMessage` as a method over a `Sink`. Its result is tied to the specification functions `Records`, `Points` and `Accepted`, and the lemmas about those functions are proved.
- `session.dfy`, module `Session`:
  - The outbound `Message`s and the dicts they are sent as (`Payload`), with the inverse `MessageOf`.
  - A `Socket` whose `Send` logs the payload in a ghost log `attempts`, and either puts it on the wire or fails.
  - `OnOpen`.

Foreign calls become parameters or nondeterminism:

- The ISO-8601 parser (`dateutil.parser.isoparse`) is a parameter `isoparse: Value -> Option<Instant>`. `None` stands for "raises".
- The store's answer to a write and the socket's answer to a send are chosen nondeterministically (`ok :| true`). The ghost `attempts` logs record what was handed over whatever the answer was. So `OnMessage` states that the point of every normalized trade item is written, in frame order, even after earlier writes failed. It also returns the store's answers in write order, so that its postcondition can say which of those points the log of accepted writes gained.
- The credentials that `on_open` reads from the environment are parameters of `OnOpen`. They are `Option<string>`, because an unset variable is `None` and serializes as `null`.

Three behaviours of the code that a reader might not expect, which the model follows:

- The code lets an exception escape `on_message` when an item is not a JSON object. `item.get` raises outside the `try` (script.py:73). The rest of that frame is then not processed. `Classify` yields `Uncaught` for such an item, `OnMessage` reports `completed == false`, and `RecordsStopAtUncaught` proves that nothing from that item onwards is written.
- The code validates nothing about price, symbol or volume: there is no positivity, non-empty or integer check. Those values are passed on exactly as decoded.
- The code has one kind of write failure, and every failure is caught and the record dropped. There is no retryable/fatal classification.

## Model

| member | source | states |
|---|---|---|
| `Trade.ParseTradeItem` | script.py:36-43 | succeeds exactly when `S`, `p` and `t` are present and `t` parses. Fails with the KeyError of the first missing key in the order S, p, t. On success, symbol = `S`, price = `p`, timestamp = parse of `t`, and volume = `s` if present, else 0 |
| `Trade.IsTrade` | script.py:73 | an object counts as a trade exactly when key `T` is present and equals the string `"t"` |
| `Trade.Classify` | script.py:72-78 | a non-object item raises outside the try. An object whose discriminator is not the trade tag is skipped with no error. A trade item is dropped as malformed exactly when normalizing fails. Otherwise the item becomes the normalized record |
| `Trade.NormalizedFields` | script.py:38-43 | a trade item with `S`, `p` and a parseable `t` becomes exactly the record (S, p, s-or-0, parse(t)) |
| `Influx.ToPoint` | script.py:47-53 | the point built for a record reads back as exactly that record, has measurement `stock_trades`, precision NS and the record's own timestamp |
| `Influx.ToPointShape` | script.py:47-53 | the point of a record has measurement `stock_trades`, the single tag `symbol`, exactly the fields `price` and `volume` with the record's values, and the record's timestamp at precision NS |
| `Influx.PointRecordIff` | script.py:47-53 | a point is the point of record r if and only if r can be read back off it. The point loses nothing of the record and carries no receipt time |
| `Influx.Sink.Write` | script.py:54 | every write is handed to the store (logged in `attempts`), and it either appends exactly the given point to the log of accepted writes or leaves that log unchanged |
| `Influx.WriteToInflux` | script.py:45-54 | exactly one write, of the record's point, is handed to the store; the log of accepted writes gains that point, or nothing if the write fails |
| `Ingest.Points` | script.py:75-76 | one point per record, in record order, each carrying that record |
| `Ingest.OnMessage` | script.py:70-78 | the points of the frame's normalized trade items, and no others, are handed to the store one by one in frame order, whatever earlier writes answered. The log of accepted writes gains exactly those of them the store accepted, in order. There is one answer per normalized trade item, and never more than there are items. The loop reaches the end of the frame exactly when every item is an object |
| `Ingest.ItemRecords` | script.py:73-76 | an object item contributes at most one record. It contributes none exactly when it is not a trade or fails to normalize; otherwise the record is the item's normalized form |
| `Ingest.HandleItem` | script.py:73-78 | one object item: its record's point, if it has one, is the only write handed to the store, and the log of accepted writes gains it exactly when the store accepted it; a non-trade or malformed item writes nothing |
| `Ingest.Records` | script.py:72-77 | the records of a frame's normalized trade items, in frame order, up to the first non-object item; never more records than items |
| `Ingest.Accepted` | script.py:76-78 | the points that survive the failed writes; every one of them is a point that was written |
| `Ingest.AcceptedSnoc` | script.py:76-78 | one more write adds its point to the accepted ones exactly when the write succeeded |
| `Ingest.RecordsConcat` | script.py:72-76 | for a frame walked to its end, its records precede those of what follows it, in order |
| `Ingest.SkippedLeavesNoTrace` | script.py:73-78 | a non-trade item or a malformed trade item, anywhere in a frame, contributes nothing, and the items after it are processed as if it were absent |
| `Ingest.NormalizedContributes` | script.py:73-76 | after a prefix walked to its end, a trade item that normalizes contributes exactly its own record, between the records before it and those after it |
| `Ingest.RecordsStopAtUncaught` | script.py:72-73 | an item that is not an object ends the frame: no later item is normalized or written |
| `Ingest.RecordsComeFromItems` | script.py:72-76 | every record is the normalized form of some trade item of the frame |
| `Ingest.AcceptedBound` | script.py:76-78 | the log of accepted writes never gains more points than were written |
| `Ingest.AcceptedAll` | script.py:76 | when every write succeeds, the sink's log of accepted writes gains every point in order |
| `Ingest.AcceptedConcat` | script.py:74-78 | the answers to one run of writes do not affect the points accepted from the next run |
| `Ingest.FailedWriteDropsOnlyItsPoint` | script.py:76-78 | a failed write drops its own point and nothing else |
| `Ingest.TradeThenQuote` | script.py:70-78 | the frame [trade AAPL 150.25 x 100 at 2024-01-01T12:00:00Z, quote AAPL] yields exactly one point, stamped with the parsed trade time |
| `Ingest.MalformedThenValid` | script.py:70-78 | a trade without price and time followed by a valid trade yields exactly one record, the valid one's |
| `Session.Handshake` | script.py:60-68 | exactly two messages: auth with the given credentials first, then subscribe to `["AAPL","TSLA"]` |
| `Session.Payload` | script.py:60-68 | the auth dict has exactly the keys action, key and secret with action `auth`; the subscribe dict has exactly action and trades with action `subscribe` and the symbol list as an array of strings |
| `Session.PayloadRoundTrip` | script.py:60-68 | each outbound dict determines its message: auth credentials and the subscribed symbol list can be read back |
| `Session.MessageOfPayload` | script.py:60-68 | every value that reads as a message is exactly that message's dict |
| `Session.Socket.Send` | script.py:60 | every send hands its payload to the socket (logged in `attempts`), and either puts exactly that payload on the wire or leaves the wire unchanged |
| `Session.OnOpen` | script.py:58-68 | the auth payload is always handed to the socket first. The subscribe payload is handed over next exactly when the auth payload went out, and nothing else is sent. When both sends succeed, the wire gains exactly [auth(key, secret), subscribe(["AAPL","TSLA"])] in that order. When a send fails, at most the auth payload went out, so subscribe never precedes auth |

## Left out

- Configuration loading (`load_dotenv`, `os.getenv`, the module globals, script.py:14-23): environment I/O. The credentials are parameters of `OnOpen`, and the bucket and organisation are fixed configuration of the `Sink`.
- Logging (`logging.basicConfig` and every `logging.*` call): side-channel output with no behaviour.
- InfluxDB client setup (`setup_influxdb`, script.py:29-33) and the network write: a foreign library, modelled only as the append-or-fail `Sink.Write`. How the client serializes a point, for example a tag value that is not a string, is not modelled.
- JSON decoding and encoding (`json.loads`, `json.dumps`): library calls. A frame is an already-decoded `seq<Value>`, and a message is the dict handed to `json.dumps`. A frame whose top-level value is not an array, and a `json.loads` failure, are not modelled. Such a frame writes nothing: `{}` and `""` make the loop run zero times and nothing happens; a non-empty object or string yields string items whose `.get` raises; a number, boolean or null raises `TypeError`; every raise reaches the WebSocket library's error callback.
- ISO-8601 parsing internals: `isoparse` is an uninterpreted parameter. `Instant` is an opaque count of nanoseconds, and there is no time-zone handling.
- WebSocket transport, `run_forever` and its heartbeat (`ping_interval=30`, `ping_timeout=10`): network I/O and library-driven concurrent liveness monitoring.
- `on_error`, `on_close` and the KeyboardInterrupt teardown (script.py:80-84, 98-100): they only log or close the transport.
- Reconnection, backoff, a session state machine, retryable/fatal write classification, and price or symbol validation: the code has none of them, so they are not modelled.
- Arithmetic on price: price is an opaque `Value` and nothing computes with it.
- Sink.Write: `points` is the log of accepted writes, not the store's contents. InfluxDB keeps one point per measurement, tag set and timestamp, so two accepted trades of one symbol at the same parsed instant leave one point in the store; that overwrite is not modelled.
