/** The connection handshake: the two messages on_open sends (script.py). */
module Session {
  import opened Values

  /** The outbound messages, before json.dumps. A credential read from the
      environment may be unset, which serializes as null. */
  datatype Message =
    | Auth(key: Option<string>, secret: Option<string>)
    | Subscribe(trades: seq<string>)

  /** The symbols whose trade channel is subscribed. */
  const Subscriptions: seq<string> := ["AAPL", "TSLA"]

  /** The handshake, in sending order: credentials first, then the subscription. */
  function Handshake(key: Option<string>, secret: Option<string>): (hs: seq<Message>)
    ensures |hs| == 2
    ensures hs[0] == Auth(key, secret)
    ensures hs[1] == Subscribe(["AAPL", "TSLA"])
  {
    [Auth(key, secret), Subscribe(Subscriptions)]
  }

  function OptionalStr(o: Option<string>): Value
  {
    match o
    case None => Null
    case Some(s) => Str(s)
  }

  function StrArray(ss: seq<string>): (r: seq<Value>)
    ensures |r| == |ss|
  {
    seq(|ss|, k requires 0 <= k < |ss| => Str(ss[k]))
  }

  /** The dict on_open hands to json.dumps for each message. */
  function Payload(m: Message): (v: Value)
    ensures v.Obj? && "action" in v.fields
    ensures v.fields["action"] == Str(if m.Auth? then "auth" else "subscribe")
    ensures m.Auth? ==> v.fields.Keys == {"action", "key", "secret"}
    ensures m.Subscribe? ==> v.fields.Keys == {"action", "trades"} && v.fields["trades"] == Arr(StrArray(m.trades))
  {
    match m
    case Auth(k, s) =>
      Obj(map["action" := Str("auth"), "key" := OptionalStr(k), "secret" := OptionalStr(s)])
    case Subscribe(ts) =>
      Obj(map["action" := Str("subscribe"), "trades" := Arr(StrArray(ts))])
  }

  function OptionalStrOf(v: Value): Option<Option<string>>
  {
    match v
    case Null => Some(None)
    case Str(s) => Some(Some(s))
    case _ => None
  }

  function StringsOf(vs: seq<Value>): Option<seq<string>>
  {
    if vs == [] then Some([])
    else
      match (vs[0], StringsOf(vs[1..]))
      case (Str(s), Some(rest)) => Some([s] + rest)
      case _ => None
  }

  /** Reads a message back off a payload of one of the two shapes. */
  function MessageOf(v: Value): Option<Message>
  {
    match v
    case Obj(f) =>
      if f.Keys == {"action", "key", "secret"} && f["action"] == Str("auth") then
        match (OptionalStrOf(f["key"]), OptionalStrOf(f["secret"]))
        case (Some(k), Some(s)) => Some(Auth(k, s))
        case _ => None
      else if f.Keys == {"action", "trades"} && f["action"] == Str("subscribe") && f["trades"].Arr? then
        match StringsOf(f["trades"].elems)
        case Some(ts) => Some(Subscribe(ts))
        case None => None
      else None
    case _ => None
  }

  lemma {:induction false} StringsOfStrArray(ss: seq<string>)
    ensures StringsOf(StrArray(ss)) == Some(ss)
  {
    if ss != [] {
      assert StrArray(ss)[1..] == StrArray(ss[1..]);
      StringsOfStrArray(ss[1..]);
      assert [ss[0]] + ss[1..] == ss;
    }
  }

  lemma {:induction false} StrArrayOfStrings(vs: seq<Value>, ss: seq<string>)
    requires StringsOf(vs) == Some(ss)
    ensures StrArray(ss) == vs
  {
    if vs != [] {
      var rest :| StringsOf(vs[1..]) == Some(rest) && ss == [vs[0].s] + rest;
      StrArrayOfStrings(vs[1..], rest);
      assert StrArray(ss) == [Str(ss[0])] + StrArray(rest);
      assert vs == [vs[0]] + vs[1..];
    }
  }

  /** Each payload determines its message: the receiver can tell the two
      apart and recover the credentials and the symbol list. */
  lemma PayloadRoundTrip(m: Message)
    ensures MessageOf(Payload(m)) == Some(m)
  {
    match m
    case Auth(k, s) =>
      assert OptionalStrOf(OptionalStr(k)) == Some(k);
      assert OptionalStrOf(OptionalStr(s)) == Some(s);
    case Subscribe(ts) =>
      StringsOfStrArray(ts);
  }

  /** And every value that reads as a message is that message's payload. */
  lemma MessageOfPayload(v: Value, m: Message)
    requires MessageOf(v) == Some(m)
    ensures Payload(m) == v
  {
    var f := v.fields;
    match m
    case Auth(k, s) =>
      assert f.Keys == {"action", "key", "secret"};
      assert OptionalStr(k) == f["key"] && OptionalStr(s) == f["secret"];
      assert f == map["action" := Str("auth"), "key" := OptionalStr(k), "secret" := OptionalStr(s)];
    case Subscribe(ts) =>
      assert f.Keys == {"action", "trades"};
      StrArrayOfStrings(f["trades"].elems, ts);
      assert f == map["action" := Str("subscribe"), "trades" := Arr(StrArray(ts))];
  }

  /** The streaming connection, as far as on_open uses it: a send that either
      puts the payload on the wire or raises. `sent` logs what went out;
      `attempts` logs every payload handed to the socket. */
  class Socket {
    var sent: seq<Value>
    ghost var attempts: seq<Value>

    constructor ()
      ensures sent == [] && attempts == []
    {
      sent := [];
      attempts := [];
    }

    method Send(payload: Value) returns (ok: bool)
      modifies this
      ensures attempts == old(attempts) + [payload]
      ensures sent == if ok then old(sent) + [payload] else old(sent)
    {
      attempts := attempts + [payload];
      ok :| true;
      if ok {
        sent := sent + [payload];
      }
    }
  }

  /** on_open: send the auth payload, then the subscribe payload. A raising
      send ends the handler, so a subscription never goes out without the
      credentials before it. */
  method OnOpen(ws: Socket, key: Option<string>, secret: Option<string>) returns (ok: bool)
    modifies ws
    ensures ws.attempts == old(ws.attempts)
      + (if ws.sent == old(ws.sent) then [Payload(Handshake(key, secret)[0])]
         else [Payload(Handshake(key, secret)[0]), Payload(Handshake(key, secret)[1])])
    ensures ok ==> ws.sent == old(ws.sent) + [Payload(Handshake(key, secret)[0]), Payload(Handshake(key, secret)[1])]
    ensures !ok ==> ws.sent == old(ws.sent) || ws.sent == old(ws.sent) + [Payload(Handshake(key, secret)[0])]
  {
    ok := ws.Send(Payload(Auth(key, secret)));
    if !ok {
      return;
    }
    ok := ws.Send(Payload(Subscribe(Subscriptions)));
  }
}
