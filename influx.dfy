/** Point construction and the hand-off to the time-series store (script.py, write_to_influx). */
module Influx {
  import opened Values
  import opened Trade

  datatype WritePrecision = NS | US | MS | S

  /** One point as the client's Point builder holds it: a measurement, tags,
      fields, a timestamp and the precision that timestamp is written at. */
  datatype Point = Point(
    measurement: string,
    tags: map<string, Value>,
    fields: map<string, Value>,
    time: Instant,
    precision: WritePrecision)

  const Measurement: string := "stock_trades"

  /** The point write_to_influx builds for one record. */
  function ToPoint(t: TradeRecord): (p: Point)
    ensures RecordOf(p) == Some(t)
    ensures p.measurement == "stock_trades" && p.precision == NS && p.time == t.timestamp
  {
    Point(Measurement,
          map["symbol" := t.symbol],
          map["price" := t.price, "volume" := t.volume],
          t.timestamp,
          NS)
  }

  /** Reads a trade record back off a point of the trade shape. */
  function RecordOf(p: Point): Option<TradeRecord>
  {
    if p.measurement == Measurement && p.precision == NS
       && p.tags.Keys == {"symbol"} && p.fields.Keys == {"price", "volume"}
    then Some(TradeRecord(p.tags["symbol"], p.fields["price"], p.fields["volume"], p.time))
    else None
  }

  /** A point is the point of record r exactly when r can be read back off it:
      the point loses nothing of the record, carries nothing else, and is
      stamped with the record's own event time at nanosecond precision. */
  lemma PointRecordIff(p: Point, r: TradeRecord)
    ensures RecordOf(p) == Some(r) <==> p == ToPoint(r)
  {
    if RecordOf(p) == Some(r) {
      assert p.tags == map["symbol" := r.symbol];
      assert p.fields == map["price" := r.price, "volume" := r.volume];
    }
  }

  lemma ToPointShape(r: TradeRecord)
    ensures var p := ToPoint(r);
      && p.measurement == "stock_trades" && p.precision == NS
      && p.tags.Keys == {"symbol"} && p.tags["symbol"] == r.symbol
      && p.fields.Keys == {"price", "volume"}
      && p.fields["price"] == r.price && p.fields["volume"] == r.volume
      && p.time == r.timestamp
  {
  }

  /** The store, reached through a synchronous write that either appends the
      point or raises. Its bucket and organisation are fixed configuration.
      `points` logs the accepted writes; `attempts` logs every write handed
      to the store, accepted or not. */
  class Sink {
    var points: seq<Point>
    ghost var attempts: seq<Point>

    constructor ()
      ensures points == [] && attempts == []
    {
      points := [];
      attempts := [];
    }

    /** write_api.write: the store's answer is outside the model. */
    method Write(p: Point) returns (ok: bool)
      modifies this
      ensures attempts == old(attempts) + [p]
      ensures points == if ok then old(points) + [p] else old(points)
    {
      attempts := attempts + [p];
      ok :| true;
      if ok {
        points := points + [p];
      }
    }
  }

  /** write_to_influx: build the record's point and write it. */
  method WriteToInflux(sink: Sink, t: TradeRecord) returns (ok: bool)
    modifies sink
    ensures sink.attempts == old(sink.attempts) + [ToPoint(t)]
    ensures sink.points == if ok then old(sink.points) + [ToPoint(t)] else old(sink.points)
  {
    var point := ToPoint(t);
    ok := sink.Write(point);
  }
}
