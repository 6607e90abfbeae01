/** The per-frame ingestion path: the item loop of on_message in script.py. */
module Ingest {
  import opened Values
  import opened Trade
  import opened Influx

  /** The records a frame's items normalize to, in frame order, up to the
      first item that is not an object (which ends the loop by raising). */
  function Records(frame: seq<Value>, isoparse: IsoParser): (rs: seq<TradeRecord>)
    ensures |rs| <= |frame|
  {
    if frame == [] then []
    else
      match Classify(frame[0], isoparse)
      case Uncaught => []
      case Normalized(r) => [r] + Records(frame[1..], isoparse)
      case _ => Records(frame[1..], isoparse)
  }

  /** One point per record, in the same order. */
  function Points(rs: seq<TradeRecord>): (ps: seq<Point>)
    ensures |ps| == |rs|
    ensures forall k :: 0 <= k < |rs| ==> RecordOf(ps[k]) == Some(rs[k])
  {
    var ps := seq(|rs|, k requires 0 <= k < |rs| => ToPoint(rs[k]));
    assert forall k :: 0 <= k < |rs| ==> RecordOf(ps[k]) == Some(rs[k]) by {
      forall k | 0 <= k < |rs| ensures RecordOf(ps[k]) == Some(rs[k]) {
        PointRecordIff(ps[k], rs[k]);
      }
    }
    ps
  }

  /** The points the store accepted, given the store's answer to each write. */
  function Accepted(pts: seq<Point>, verdicts: seq<bool>): (r: seq<Point>)
    requires |pts| == |verdicts|
    ensures forall q :: q in r ==> q in pts
  {
    if pts == [] then []
    else
      var n := |pts| - 1;
      Accepted(pts[..n], verdicts[..n]) + (if verdicts[n] then [pts[n]] else [])
  }

  /** The frame is walked to its end: no item raises outside the try. */
  predicate Completes(frame: seq<Value>)
  {
    forall i :: 0 <= i < |frame| ==> frame[i].Obj?
  }

  /** The records one object item contributes: its own record when it is a
      trade that normalizes, nothing otherwise. */
  function ItemRecords(item: map<string, Value>, isoparse: IsoParser): (rs: seq<TradeRecord>)
    ensures |rs| <= 1
    ensures rs == [] <==> !IsTrade(item) || ParseTradeItem(item, isoparse).Err?
    ensures rs != [] ==> Classify(Obj(item), isoparse) == Normalized(rs[0])
  {
    if IsTrade(item) && ParseTradeItem(item, isoparse).Ok? then [ParseTradeItem(item, isoparse).value] else []
  }

  /** on_message after decoding: walk the items in order, skip the non-trades,
      normalize and write each trade, and drop the item on any error of either
      step. Returns the store's answer to each write in order, and whether the
      loop reached the end of the frame. */
  method OnMessage(frame: seq<Value>, isoparse: IsoParser, sink: Sink)
    returns (verdicts: seq<bool>, completed: bool)
    modifies sink
    ensures completed <==> Completes(frame)
    ensures sink.attempts == old(sink.attempts) + Points(Records(frame, isoparse))
    ensures |verdicts| == |Records(frame, isoparse)| <= |frame|
    ensures sink.points == old(sink.points) + Accepted(Points(Records(frame, isoparse)), verdicts)
  {
    verdicts, completed := [], true;
    ghost var done: seq<TradeRecord> := [];
    var i := 0;
    while i < |frame|
      invariant 0 <= i <= |frame|
      invariant Completes(frame[..i])
      invariant Records(frame, isoparse) == done + Records(frame[i..], isoparse)
      invariant |verdicts| == |done|
      invariant sink.attempts == old(sink.attempts) + Points(done)
      invariant sink.points == old(sink.points) + Accepted(Points(done), verdicts)
    {
      var item := frame[i];
      RecordsAt(frame, i, isoparse);
      if !item.Obj? {
        completed := false;
        assert done + [] == done;
        return;
      }
      ghost var attempts, points := sink.attempts, sink.points;
      var vs := HandleItem(item.fields, isoparse, sink);
      ghost var one := ItemRecords(item.fields, isoparse);
      LoopStep(frame, i, isoparse, done, verdicts, vs,
               old(sink.attempts), old(sink.points), attempts, points, sink.attempts, sink.points);
      verdicts := verdicts + vs;
      done := done + one;
      i := i + 1;
    }
    assert frame[..i] == frame;
    assert frame[i..] == [];
    assert done + [] == done;
  }

  /** The loop body of on_message for one object item: a non-trade is skipped;
      a trade is normalized and, unless malformed, its point is handed to the
      store. Returns the store's answer, if a write was made. */
  method HandleItem(item: map<string, Value>, isoparse: IsoParser, sink: Sink)
    returns (verdicts: seq<bool>)
    modifies sink
    ensures |verdicts| == |ItemRecords(item, isoparse)|
    ensures sink.attempts == old(sink.attempts) + Points(ItemRecords(item, isoparse))
    ensures sink.points == old(sink.points) + Accepted(Points(ItemRecords(item, isoparse)), verdicts)
  {
    verdicts := [];
    if IsTrade(item) {
      match ParseTradeItem(item, isoparse)
      case Err(_) =>
      case Ok(rec) =>
        var ok := WriteToInflux(sink, rec);
        verdicts := [ok];
        assert Points([rec]) == [ToPoint(rec)];
        assert [ToPoint(rec)][..0] == [] && [ok][..0] == [];
    }
  }

  /** A prefix walked to its end, followed by one more object, is walked to its end. */
  lemma CompletesExtend(frame: seq<Value>, i: nat)
    requires i < |frame| && Completes(frame[..i]) && frame[i].Obj?
    ensures Completes(frame[..i + 1])
  {
    var longer, shorter := frame[..i + 1], frame[..i];
    forall j | 0 <= j < |longer| ensures longer[j].Obj? {
      if j < i { assert longer[j] == shorter[j]; }
    }
  }

  /** The records from position i on: none at a non-object, else the item's
      own records before those of the rest. */
  lemma RecordsAt(frame: seq<Value>, i: nat, isoparse: IsoParser)
    requires i < |frame|
    ensures !frame[i].Obj? ==> Records(frame[i..], isoparse) == []
    ensures frame[i].Obj? ==>
      Records(frame[i..], isoparse) == ItemRecords(frame[i].fields, isoparse) + Records(frame[i + 1..], isoparse)
  {
    assert frame[i..][0] == frame[i] && frame[i..][1..] == frame[i + 1..];
  }

  /** Points distribute over concatenation. */
  lemma PointsConcat(a: seq<TradeRecord>, b: seq<TradeRecord>)
    ensures Points(a + b) == Points(a) + Points(b)
  {
  }

  /** Writing the records of one more item, in order after the earlier ones:
      every write is attempted, and the accepted points of the two runs
      follow each other. */
  lemma WritesCompose(done: seq<TradeRecord>, verdicts: seq<bool>, more: seq<TradeRecord>, vs: seq<bool>)
    requires |done| == |verdicts| && |more| == |vs|
    ensures Points(done + more) == Points(done) + Points(more)
    ensures Accepted(Points(done + more), verdicts + vs)
         == Accepted(Points(done), verdicts) + Accepted(Points(more), vs)
  {
    PointsConcat(done, more);
    AcceptedConcat(Points(done), verdicts, Points(more), vs);
  }

  /** One turn of the on_message loop over an object item keeps the loop's
      account of the frame: the records seen so far, every write attempted,
      and the accepted points in order. */
  lemma LoopStep(frame: seq<Value>, i: nat, isoparse: IsoParser,
                 done: seq<TradeRecord>, verdicts: seq<bool>, vs: seq<bool>,
                 attempts0: seq<Point>, points0: seq<Point>,
                 attempts: seq<Point>, points: seq<Point>,
                 attempts1: seq<Point>, points1: seq<Point>)
    requires i < |frame| && frame[i].Obj? && Completes(frame[..i])
    requires Records(frame, isoparse) == done + Records(frame[i..], isoparse)
    requires |verdicts| == |done| && |vs| == |ItemRecords(frame[i].fields, isoparse)|
    requires attempts == attempts0 + Points(done)
    requires points == points0 + Accepted(Points(done), verdicts)
    requires attempts1 == attempts + Points(ItemRecords(frame[i].fields, isoparse))
    requires points1 == points + Accepted(Points(ItemRecords(frame[i].fields, isoparse)), vs)
    ensures Completes(frame[..i + 1])
    ensures Records(frame, isoparse)
         == (done + ItemRecords(frame[i].fields, isoparse)) + Records(frame[i + 1..], isoparse)
    ensures attempts1 == attempts0 + Points(done + ItemRecords(frame[i].fields, isoparse))
    ensures points1 == points0 + Accepted(Points(done + ItemRecords(frame[i].fields, isoparse)), verdicts + vs)
  {
    var one := ItemRecords(frame[i].fields, isoparse);
    CompletesExtend(frame, i);
    RecordsAt(frame, i, isoparse);
    WritesCompose(done, verdicts, one, vs);
    SeqAssoc(attempts0, Points(done), Points(one));
    SeqAssoc(points0, Accepted(Points(done), verdicts), Accepted(Points(one), vs));
    SeqAssoc(done, one, Records(frame[i + 1..], isoparse));
  }

  lemma SeqAssoc<T>(a: seq<T>, b: seq<T>, c: seq<T>)
    ensures (a + b) + c == a + (b + c)
  {
  }

  // Lemmas about the records of a frame

  /** A frame that is walked to the end contributes its records before those of
      whatever follows: records come out in frame order. */
  lemma {:induction false} RecordsConcat(a: seq<Value>, b: seq<Value>, isoparse: IsoParser)
    requires Completes(a)
    ensures Records(a + b, isoparse) == Records(a, isoparse) + Records(b, isoparse)
  {
    if a == [] {
      assert a + b == b;
    } else {
      assert (a + b)[0] == a[0] && (a + b)[1..] == a[1..] + b;
      RecordsConcat(a[1..], b, isoparse);
    }
  }

  /** An item that is skipped (not a trade) or dropped (malformed) leaves no
      trace, and every later item is still processed as if it were absent. */
  lemma {:induction false} SkippedLeavesNoTrace(a: seq<Value>, x: Value, b: seq<Value>, isoparse: IsoParser)
    requires Classify(x, isoparse).Skipped? || Classify(x, isoparse).Malformed?
    ensures Records(a + [x] + b, isoparse) == Records(a + b, isoparse)
  {
    if a == [] {
      assert a + [x] + b == [x] + b && ([x] + b)[1..] == b && a + b == b;
    } else {
      assert (a + [x] + b)[0] == a[0] && (a + [x] + b)[1..] == a[1..] + [x] + b;
      assert (a + b)[0] == a[0] && (a + b)[1..] == a[1..] + b;
      SkippedLeavesNoTrace(a[1..], x, b, isoparse);
    }
  }

  /** A trade item that normalizes contributes its own record, in place,
      between the records of the items before it and those after it. */
  lemma NormalizedContributes(a: seq<Value>, x: Value, r: TradeRecord, b: seq<Value>, isoparse: IsoParser)
    requires Completes(a)
    requires Classify(x, isoparse) == Normalized(r)
    ensures Records(a + [x] + b, isoparse) == Records(a, isoparse) + [r] + Records(b, isoparse)
  {
    RecordsConcat(a, [x] + b, isoparse);
    assert a + [x] + b == a + ([x] + b);
    assert ([x] + b)[0] == x && ([x] + b)[1..] == b;
    SeqAssoc(Records(a, isoparse), [r], Records(b, isoparse));
  }

  /** An item that is not an object ends the frame: nothing from it onwards is
      normalized or written. */
  lemma {:induction false} RecordsStopAtUncaught(frame: seq<Value>, k: nat, isoparse: IsoParser)
    requires k < |frame| && !frame[k].Obj?
    ensures Records(frame, isoparse) == Records(frame[..k], isoparse)
  {
    if k == 0 {
      assert frame[..k] == [];
    } else {
      assert frame[..k][0] == frame[0] && frame[..k][1..] == frame[1..][..k - 1];
      RecordsStopAtUncaught(frame[1..], k - 1, isoparse);
    }
  }

  /** Every record is the normalized form of some trade item of the frame. */
  lemma {:induction false} RecordsComeFromItems(frame: seq<Value>, isoparse: IsoParser, k: nat)
    requires k < |Records(frame, isoparse)|
    ensures exists j :: 0 <= j < |frame| && Classify(frame[j], isoparse) == Normalized(Records(frame, isoparse)[k])
  {
    var d := Classify(frame[0], isoparse);
    if d.Normalized? && k == 0 {
      assert Classify(frame[0], isoparse) == Normalized(Records(frame, isoparse)[k]);
    } else {
      var k' := if d.Normalized? then k - 1 else k;
      assert Records(frame, isoparse)[k] == Records(frame[1..], isoparse)[k'];
      RecordsComeFromItems(frame[1..], isoparse, k');
      var j :| 0 <= j < |frame[1..]| && Classify(frame[1..][j], isoparse) == Normalized(Records(frame[1..], isoparse)[k']);
      assert frame[j + 1] == frame[1..][j];
    }
  }

  // Lemmas about the store's answers

  /** The store never gains more points than were written. */
  lemma {:induction false} AcceptedBound(pts: seq<Point>, verdicts: seq<bool>)
    requires |pts| == |verdicts|
    ensures |Accepted(pts, verdicts)| <= |pts|
  {
    if pts != [] {
      AcceptedBound(pts[..|pts| - 1], verdicts[..|pts| - 1]);
    }
  }

  /** When every write succeeds the store gains every point, in order. */
  lemma {:induction false} AcceptedAll(pts: seq<Point>, verdicts: seq<bool>)
    requires |pts| == |verdicts|
    requires forall k :: 0 <= k < |verdicts| ==> verdicts[k]
    ensures Accepted(pts, verdicts) == pts
  {
    if pts != [] {
      var n := |pts| - 1;
      AcceptedAll(pts[..n], verdicts[..n]);
      assert pts[..n] + [pts[n]] == pts;
    }
  }

  /** One more write adds its point to the accepted ones exactly when the
      store accepted that write. */
  lemma AcceptedSnoc(done: seq<TradeRecord>, verdicts: seq<bool>, rec: TradeRecord, ok: bool)
    requires |done| == |verdicts|
    ensures Accepted(Points(done + [rec]), verdicts + [ok])
         == Accepted(Points(done), verdicts) + (if ok then [ToPoint(rec)] else [])
  {
    assert Points(done + [rec]) == Points(done) + [ToPoint(rec)];
    assert (Points(done) + [ToPoint(rec)])[..|done|] == Points(done);
    assert (verdicts + [ok])[..|done|] == verdicts;
  }

  /** The answers to one run of writes do not affect the next run. */
  lemma {:induction false} AcceptedConcat(a: seq<Point>, va: seq<bool>, b: seq<Point>, vb: seq<bool>)
    requires |a| == |va| && |b| == |vb|
    ensures Accepted(a + b, va + vb) == Accepted(a, va) + Accepted(b, vb)
  {
    if b == [] {
      assert a + b == a && va + vb == va;
    } else {
      var n := |b| - 1;
      assert (a + b)[..|a| + n] == a + b[..n];
      assert (va + vb)[..|a| + n] == va + vb[..n];
      AcceptedConcat(a, va, b[..n], vb[..n]);
    }
  }

  /** A failed write drops its own point and nothing else. */
  lemma FailedWriteDropsOnlyItsPoint(a: seq<Point>, va: seq<bool>, p: Point, b: seq<Point>, vb: seq<bool>)
    requires |a| == |va| && |b| == |vb|
    ensures Accepted(a + [p] + b, va + [false] + vb) == Accepted(a + b, va + vb)
  {
    assert Accepted([p], [false]) == [] by {
      assert [p][..0] == [] && [false][..0] == [];
    }
    calc {
      Accepted(a + [p] + b, va + [false] + vb);
      { AcceptedConcat(a + [p], va + [false], b, vb); }
      Accepted(a + [p], va + [false]) + Accepted(b, vb);
      { AcceptedConcat(a, va, [p], [false]); }
      Accepted(a, va) + Accepted(b, vb);
      { AcceptedConcat(a, va, b, vb); }
      Accepted(a + b, va + vb);
    }
  }

  // Two example frames: a trade then a quote, and a malformed trade then a valid one

  const Iso: string := "2024-01-01T12:00:00Z"

  function ValidTrade(): Value
  {
    Obj(map["T" := Str("t"), "S" := Str("AAPL"), "p" := Float("150.25"), "s" := Int(100), "t" := Str(Iso)])
  }

  /** A trade followed by a quote: one point, stamped with the trade's time. */
  lemma TradeThenQuote(isoparse: IsoParser, ts: Instant)
    requires isoparse(Str(Iso)) == Some(ts)
    ensures var frame := [ValidTrade(), Obj(map["T" := Str("q"), "S" := Str("AAPL")])];
      Points(Records(frame, isoparse))
      == [Point("stock_trades", map["symbol" := Str("AAPL")],
                map["price" := Float("150.25"), "volume" := Int(100)], ts, NS)]
  {
    var frame := [ValidTrade(), Obj(map["T" := Str("q"), "S" := Str("AAPL")])];
    assert frame[1..][1..] == [];
  }

  /** A malformed trade (no price, no time) before a valid one: exactly one record. */
  lemma MalformedThenValid(isoparse: IsoParser, ts: Instant)
    requires isoparse(Str(Iso)) == Some(ts)
    ensures var frame := [Obj(map["T" := Str("t"), "S" := Str("AAPL")]), ValidTrade()];
      Records(frame, isoparse) == [TradeRecord(Str("AAPL"), Float("150.25"), Int(100), ts)]
  {
    var frame := [Obj(map["T" := Str("t"), "S" := Str("AAPL")]), ValidTrade()];
    assert frame[1..][1..] == [];
  }
}
