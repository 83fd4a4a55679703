/** The protocol engine of xpl_application_service.cpp: handler
    registration, `send`, the receive path (`start_read` and
    `handle_message`) and the heartbeat schedule. The UDP socket, the
    io_service and the deadline timer are replaced by plain data: the
    datagrams written so far, the local address the socket reports, and
    the absolute time (in seconds) the timer is set to expire. */
module XplService {
  import opened Optional
  import opened Text
  import opened KeyOrder
  import opened XplMessage
  import opened DatagramParser
  import opened XplWire

  /** Heartbeat periods, in seconds. */
  const DiscoveryPeriod: nat := 3
  const LonelyPeriod: nat := 30
  const HeartbeatPeriod: nat := 5 * 60

  /** Discovery lasts for at most 120 s worth of discovery heartbeats. */
  const MaxDiscoveryCount: nat := 120 / DiscoveryPeriod

  const CommandType: string := "xpl-cmnd"
  const StatusType: string := "xpl-stat"
  const TriggerType: string := "xpl-trig"

  /** A registered handler. `Unset` is an empty std::function, which
      handle_message finds but does not call; `HeartbeatRequest` is the
      built-in handler that sends a heartbeat; `Callback(name)` stands for
      an application handler, which the engine reports instead of calling. */
  datatype Handler = Unset | HeartbeatRequest | Callback(name: string)

  /** What the heartbeat timer will do when it next expires. */
  datatype Timer = Unarmed | Discovery(counter: nat) | Regular

  datatype Service = Service(
    appId: string,
    version: string,
    port: nat,        // port the socket is bound to
    ip: string,       // address of the socket's local endpoint
    connected: bool,
    handlers: map<(string, string), Handler>,   // (message type, schema) -> handler
    sent: seq<string>,    // datagrams sent synchronously, in order
    posted: seq<string>,  // datagrams queued by send(), in order
    timer: Timer,
    deadline: nat)

  /** std::to_string of an unsigned number. */
  function Decimal(n: nat): (r: string)
    ensures 0 < |r|
    ensures forall i :: 0 <= i < |r| ==> '0' <= r[i] <= '9'
  {
    var d := ['0' + (n % 10) as char];
    if n < 10 then d else Decimal(n / 10) + d
  }

  /** The constructor: not connected, one handler for heartbeat requests. */
  function NewService(appId: string, version: string, port: nat, ip: string): (s: Service)
    ensures !s.connected && s.timer == Unarmed && s.sent == [] && s.posted == []
    ensures s.handlers.Keys == {(CommandType, "hbeat.request")}
    ensures s.handlers[(CommandType, "hbeat.request")] == HeartbeatRequest
  {
    Service(appId, version, port, ip, false, map[(CommandType, "hbeat.request") := HeartbeatRequest], [], [], Unarmed, 0)
  }

  // ---------------------------------------------------------------------
  // Registration

  /** `r` is `s` with handler `h` installed for `key`: any earlier handler
      for `key` is replaced, and nothing else changes. */
  predicate Installs(s: Service, r: Service, key: (string, string), h: Handler) {
    && r.handlers.Keys == s.handlers.Keys + {key}
    && r.handlers[key] == h
    && (forall k :: k in s.handlers && k != key ==> r.handlers[k] == s.handlers[k])
    && r == s.(handlers := r.handlers)
  }

  function Register(s: Service, messageType: string, schema: string, h: Handler): (r: Service)
    ensures Installs(s, r, (messageType, schema), h)
  {
    s.(handlers := s.handlers[(messageType, schema) := h])
  }

  /** register_command: the handler for commands of `schema`. */
  function RegisterCommand(s: Service, schema: string, h: Handler): (r: Service)
    ensures Installs(s, r, (CommandType, schema), h)
  {
    Register(s, CommandType, schema, h)
  }

  /** register_status: the handler for status messages of `schema`. */
  function RegisterStatus(s: Service, schema: string, h: Handler): (r: Service)
    ensures Installs(s, r, (StatusType, schema), h)
  {
    Register(s, StatusType, schema, h)
  }

  /** register_trigger: the handler for triggers of `schema`. */
  function RegisterTrigger(s: Service, schema: string, h: Handler): (r: Service)
    ensures Installs(s, r, (TriggerType, schema), h)
  {
    Register(s, TriggerType, schema, h)
  }

  /** Registering twice for the same type and schema keeps only the
      second handler. */
  lemma RegisterReplaces(s: Service, messageType: string, schema: string, h1: Handler, h2: Handler)
    ensures Register(Register(s, messageType, schema, h1), messageType, schema, h2)
         == Register(s, messageType, schema, h2)
  {
  }

  // ---------------------------------------------------------------------
  // Sending

  /** The copy of `m` that send() writes: `source` set to our id. */
  function Stamp(s: Service, m: Message): (r: Message)
    ensures r.headers.Keys == m.headers.Keys + {"source"} && r.headers["source"] == s.appId
    ensures forall k :: k in m.headers && k != "source" ==> r.headers[k] == m.headers[k]
    ensures r.messageType == m.messageType && r.messageSchema == m.messageSchema && r.body == m.body
  {
    m.(headers := m.headers["source" := s.appId])
  }

  /** send(): queue the wire text of the stamped message. Exactly one
      datagram is added after those already queued, and a peer that parses
      it gets the message back with our id as its source. */
  function Send(s: Service, m: Message): (r: Service)
    ensures |r.posted| == |s.posted| + 1 && r.posted[..|s.posted|] == s.posted
    ensures r == s.(posted := r.posted)
    ensures WireSafe(m) && TextSafe(s.appId) ==>
      FeedLines(Fresh(), Tokenize(r.posted[|s.posted|])) == Parser(Ready, Stamp(s, m))
  {
    var stamped := Stamp(s, m);
    var posted := s.posted + [ToString(stamped)];
    assert posted[|s.posted|] == ToString(stamped);
    if WireSafe(m) && TextSafe(s.appId) then
      StampSafe(s, m);
      RoundTrip(stamped);
      s.(posted := posted)
    else
      s.(posted := posted)
  }

  /** Stamping a wire-safe message with a safe id keeps it wire-safe. */
  lemma StampSafe(s: Service, m: Message)
    requires WireSafe(m) && TextSafe(s.appId)
    ensures WireSafe(Stamp(s, m))
  {
    MapSafeUpdate(m.headers, "source", s.appId);
    assert KeySafe("source");
  }

  /** A peer that parses what send() queued gets the message back with our
      id as its source. */
  lemma SendRoundTrip(s: Service, m: Message)
    requires WireSafe(m) && TextSafe(s.appId)
    ensures FeedLines(Fresh(), Tokenize(Last(Send(s, m).posted))) == Parser(Ready, Stamp(s, m))
  {
    RoundTrip(Stamp(s, m));
  }

  function Last(ds: seq<string>): string
    requires 0 < |ds|
  {
    ds[|ds| - 1]
  }

  // ---------------------------------------------------------------------
  // Heartbeats

  /** The heartbeat as a message. */
  function HeartbeatMessage(s: Service): Message {
    Message(StatusType, "hbeat.app",
      map["hop" := "1", "source" := s.appId, "target" := "*"],
      map["interval" := Decimal(HeartbeatPeriod / 60), "port" := Decimal(s.port),
          "remote-ip" := s.ip, "version" := s.version])
  }

  /** The heartbeat text send_heartbeat_message assembles by hand. */
  function HeartbeatText(s: Service): string {
    "xpl-stat\n{\nhop=1\nsource=" + s.appId + ("\ntarget=*\n" + "}\nhbeat.app\n{\ninterval=")
    + Decimal(HeartbeatPeriod / 60) + "\nport=" + Decimal(s.port) + "\nremote-ip=" + s.ip
    + "\nversion=" + s.version + "\n}\n"
  }

  /** send_heartbeat_message: one more datagram, the serialised heartbeat
      message. */
  function SendHeartbeat(s: Service): (r: Service)
    ensures r == s.(sent := s.sent + [ToString(HeartbeatMessage(s))])
  {
    HeartbeatTextIsToString(s);
    s.(sent := s.sent + [HeartbeatText(s)])
  }

  /** Any eleven strings joined left to right, as a list of pieces. */
  lemma Chain11(a0: string, a1: string, a2: string, a3: string, a4: string, a5: string,
                a6: string, a7: string, a8: string, a9: string, a10: string)
    ensures a0 + a1 + a2 + a3 + a4 + a5 + a6 + a7 + a8 + a9 + a10
         == Concat([a0, a1, a2, a3, a4, a5, a6, a7, a8, a9, a10])
  {
    var A := [a0, a1, a2, a3, a4, a5, a6, a7, a8, a9, a10];
    assert Concat(A[..1]) == a0 + Concat([]);
    assert A[..2] == A[..1] + [a1];
    ConcatSnoc(A[..1], a1);
    assert A[..3] == A[..2] + [a2];
    ConcatSnoc(A[..2], a2);
    assert A[..4] == A[..3] + [a3];
    ConcatSnoc(A[..3], a3);
    assert A[..5] == A[..4] + [a4];
    ConcatSnoc(A[..4], a4);
    assert A[..6] == A[..5] + [a5];
    ConcatSnoc(A[..5], a5);
    assert A[..7] == A[..6] + [a6];
    ConcatSnoc(A[..6], a6);
    assert A[..8] == A[..7] + [a7];
    ConcatSnoc(A[..7], a7);
    assert A[..9] == A[..8] + [a8];
    ConcatSnoc(A[..8], a8);
    assert A[..10] == A[..9] + [a9];
    ConcatSnoc(A[..9], a9);
    assert A == A[..10] + [a10];
    ConcatSnoc(A[..10], a10);
  }

  /** Merging a run of pieces into the string they make up. */
  lemma Regroup(pre: seq<string>, x: string, post: seq<string>, l: string, rest: seq<string>)
    requires Concat(pre) == l && Concat(post) == Concat(rest)
    ensures Concat(pre + [x] + post) == Concat([l, x] + rest)
  {
    ConcatSplit(pre, x, post);
    assert ([l, x] + rest)[1..] == [x] + rest;
    assert ([x] + rest)[1..] == rest;
  }

  lemma HeaderKeys()
    ensures SortedKeys({"hop", "source", "target"}) == ["hop", "source", "target"]
  {
    var ks := ["hop", "source", "target"];
    assert LexLess("hop", "source") && LexLess("source", "target") && LexLess("hop", "target");
    assert StrictlySorted(ks);
    SortedKeysUnique(ks, {"hop", "source", "target"});
  }

  lemma BodyKeys()
    ensures SortedKeys({"interval", "port", "remote-ip", "version"}) == ["interval", "port", "remote-ip", "version"]
  {
    var ks := ["interval", "port", "remote-ip", "version"];
    assert LexLess("interval", "port") && LexLess("port", "remote-ip") && LexLess("remote-ip", "version");
    assert LexLess("interval", "remote-ip") && LexLess("interval", "version") && LexLess("port", "version");
    assert StrictlySorted(ks);
    SortedKeysUnique(ks, {"interval", "port", "remote-ip", "version"});
  }

  lemma HeaderPieces(h: map<string, string>, id: string)
    requires h == map["hop" := "1", "source" := id, "target" := "*"]
    ensures BlockPieces(["hop", "source", "target"], h)
         == ["hop", "=", "1", "\n", "source", "=", id, "\n", "target", "=", "*", "\n"]
  {
    var ks := ["hop", "source", "target"];
    assert ks[1..] == ["source", "target"] && ks[1..][1..] == ["target"] && ks[1..][1..][1..] == [];
    assert BlockPieces(["target"], h) == ["target", "=", "*", "\n"];
    assert BlockPieces(["source", "target"], h) == ["source", "=", id, "\n"] + ["target", "=", "*", "\n"];
  }

  lemma BodyPieces(b: map<string, string>, i: string, p: string, ip: string, v: string)
    requires b == map["interval" := i, "port" := p, "remote-ip" := ip, "version" := v]
    ensures BlockPieces(["interval", "port", "remote-ip", "version"], b)
         == ["interval", "=", i, "\n", "port", "=", p, "\n", "remote-ip", "=", ip, "\n", "version", "=", v, "\n"]
  {
    var ks := ["interval", "port", "remote-ip", "version"];
    assert ks[1..] == ["port", "remote-ip", "version"] && ks[1..][1..] == ["remote-ip", "version"];
    assert ks[1..][1..][1..] == ["version"] && ks[1..][1..][1..][1..] == [];
    assert BlockPieces(["version"], b) == ["version", "=", v, "\n"];
    assert BlockPieces(["remote-ip", "version"], b) == ["remote-ip", "=", ip, "\n"] + ["version", "=", v, "\n"];
    assert BlockPieces(["port", "remote-ip", "version"], b)
        == ["port", "=", p, "\n"] + ["remote-ip", "=", ip, "\n"] + ["version", "=", v, "\n"];
  }

  // The literal runs between the variable parts of the heartbeat text.

  lemma ConcatCons(x: string, r: seq<string>)
    ensures Concat([x] + r) == x + Concat(r)
  {
    assert ([x] + r)[1..] == r;
  }

  lemma Concat2(a: string, b: string)
    ensures Concat([a, b]) == a + b
  {
    ConcatCons(a, [b]);
    ConcatCons(b, []);
    assert b + "" == b;
  }

  lemma Concat3(a: string, b: string, c: string)
    ensures Concat([a, b, c]) == a + (b + c)
  {
    ConcatCons(a, [b, c]);
    Concat2(b, c);
  }

  lemma Concat4(a: string, b: string, c: string, d: string)
    ensures Concat([a, b, c, d]) == a + (b + (c + d))
  {
    ConcatCons(a, [b, c, d]);
    Concat3(b, c, d);
  }

  lemma Concat5(a: string, b: string, c: string, d: string, e: string)
    ensures Concat([a, b, c, d, e]) == a + (b + (c + (d + e)))
  {
    ConcatCons(a, [b, c, d, e]);
    Concat4(b, c, d, e);
  }

  lemma HeadLiteral()
    ensures Concat(["xpl-stat", "\n{\n", "hop", "=", "1", "\n", "source", "="]) == "xpl-stat\n{\nhop=1\nsource="
  {
    ConcatAppend(["xpl-stat", "\n{\n", "hop", "="], ["1", "\n", "source", "="]);
    assert ["xpl-stat", "\n{\n", "hop", "="] + ["1", "\n", "source", "="]
        == ["xpl-stat", "\n{\n", "hop", "=", "1", "\n", "source", "="];
    Concat4("xpl-stat", "\n{\n", "hop", "=");
    Concat4("1", "\n", "source", "=");
  }

  lemma TargetLiteral()
    ensures Concat(["\n", "target", "=", "*", "\n"]) == "\ntarget=*\n"
  {
    Concat5("\n", "target", "=", "*", "\n");
  }

  lemma SchemaLiteral()
    ensures Concat(["}\n", "hbeat.app", "\n{\n", "interval", "="]) == "}\nhbeat.app\n{\ninterval="
  {
    Concat5("}\n", "hbeat.app", "\n{\n", "interval", "=");
  }

  lemma MiddleLiteral()
    ensures Concat(["\n", "target", "=", "*", "\n", "}\n", "hbeat.app", "\n{\n", "interval", "="])
         == ("\ntarget=*\n" + "}\nhbeat.app\n{\ninterval=")
  {
    ConcatAppend(["\n", "target", "=", "*", "\n"], ["}\n", "hbeat.app", "\n{\n", "interval", "="]);
    assert ["\n", "target", "=", "*", "\n"] + ["}\n", "hbeat.app", "\n{\n", "interval", "="]
        == ["\n", "target", "=", "*", "\n", "}\n", "hbeat.app", "\n{\n", "interval", "="];
    TargetLiteral();
    SchemaLiteral();
  }

  lemma ShortLiterals()
    ensures Concat(["\n", "port", "="]) == "\nport="
    ensures Concat(["\n", "remote-ip", "="]) == "\nremote-ip="
    ensures Concat(["\n", "version", "="]) == "\nversion="
    ensures Concat(["\n", "}\n"]) == "\n}\n"
  {
    Concat3("\n", "port", "=");
    Concat3("\n", "remote-ip", "=");
    Concat3("\n", "version", "=");
    Concat2("\n", "}\n");
  }

  lemma HeartbeatHeaderPieces(s: Service)
    ensures BlockPieces(SortedKeys(HeartbeatMessage(s).headers.Keys), HeartbeatMessage(s).headers)
         == ["hop", "=", "1", "\n", "source", "=", s.appId, "\n", "target", "=", "*", "\n"]
  {
    var h := HeartbeatMessage(s).headers;
    assert h.Keys == {"hop", "source", "target"};
    HeaderKeys();
    HeaderPieces(h, s.appId);
  }

  lemma HeartbeatBodyPieces(s: Service)
    ensures BlockPieces(SortedKeys(HeartbeatMessage(s).body.Keys), HeartbeatMessage(s).body)
         == ["interval", "=", Decimal(HeartbeatPeriod / 60), "\n", "port", "=", Decimal(s.port), "\n",
             "remote-ip", "=", s.ip, "\n", "version", "=", s.version, "\n"]
  {
    var b := HeartbeatMessage(s).body;
    assert b.Keys == {"interval", "port", "remote-ip", "version"};
    BodyKeys();
    BodyPieces(b, Decimal(HeartbeatPeriod / 60), Decimal(s.port), s.ip, s.version);
  }

  // Pieces regrouped around variables: runs of pieces between the
  // variables merge into the strings they make up.

  lemma Regroup3(g5: seq<string>, g6: seq<string>, l5: string, l6: string, x5: string)
    requires Concat(g5) == l5 && Concat(g6) == l6
    ensures Concat(g5 + [x5] + g6) == Concat([l5, x5, l6])
  {
    assert Concat([l6]) == l6 + Concat([]);
    Regroup(g5, x5, g6, l5, [l6]);
  }

  lemma Regroup5(g4: seq<string>, g5: seq<string>, g6: seq<string>, l4: string, l5: string, l6: string,
                 x4: string, x5: string)
    requires Concat(g4) == l4 && Concat(g5) == l5 && Concat(g6) == l6
    ensures Concat(g4 + [x4] + (g5 + [x5] + g6)) == Concat([l4, x4, l5, x5, l6])
  {
    Regroup3(g5, g6, l5, l6, x5);
    Regroup(g4, x4, g5 + [x5] + g6, l4, [l5, x5, l6]);
  }

  lemma Regroup7(g3: seq<string>, g4: seq<string>, g5: seq<string>, g6: seq<string>,
                 l3: string, l4: string, l5: string, l6: string, x3: string, x4: string, x5: string)
    requires Concat(g3) == l3 && Concat(g4) == l4 && Concat(g5) == l5 && Concat(g6) == l6
    ensures Concat(g3 + [x3] + (g4 + [x4] + (g5 + [x5] + g6))) == Concat([l3, x3, l4, x4, l5, x5, l6])
  {
    Regroup5(g4, g5, g6, l4, l5, l6, x4, x5);
    Regroup(g3, x3, g4 + [x4] + (g5 + [x5] + g6), l3, [l4, x4, l5, x5, l6]);
  }

  lemma Regroup9(g2: seq<string>, g3: seq<string>, g4: seq<string>, g5: seq<string>, g6: seq<string>,
                 l2: string, l3: string, l4: string, l5: string, l6: string,
                 x2: string, x3: string, x4: string, x5: string)
    requires Concat(g2) == l2 && Concat(g3) == l3 && Concat(g4) == l4 && Concat(g5) == l5 && Concat(g6) == l6
    ensures Concat(g2 + [x2] + (g3 + [x3] + (g4 + [x4] + (g5 + [x5] + g6))))
         == Concat([l2, x2, l3, x3, l4, x4, l5, x5, l6])
  {
    Regroup7(g3, g4, g5, g6, l3, l4, l5, l6, x3, x4, x5);
    Regroup(g2, x2, g3 + [x3] + (g4 + [x4] + (g5 + [x5] + g6)), l2, [l3, x3, l4, x4, l5, x5, l6]);
  }

  lemma Regroup11(g1: seq<string>, g2: seq<string>, g3: seq<string>, g4: seq<string>, g5: seq<string>, g6: seq<string>,
                  l1: string, l2: string, l3: string, l4: string, l5: string, l6: string,
                  x1: string, x2: string, x3: string, x4: string, x5: string)
    requires Concat(g1) == l1 && Concat(g2) == l2 && Concat(g3) == l3
    requires Concat(g4) == l4 && Concat(g5) == l5 && Concat(g6) == l6
    ensures Concat(g1 + [x1] + (g2 + [x2] + (g3 + [x3] + (g4 + [x4] + (g5 + [x5] + g6)))))
         == Concat([l1, x1, l2, x2, l3, x3, l4, x4, l5, x5, l6])
  {
    Regroup9(g2, g3, g4, g5, g6, l2, l3, l4, l5, l6, x2, x3, x4, x5);
    Regroup(g1, x1, g2 + [x2] + (g3 + [x3] + (g4 + [x4] + (g5 + [x5] + g6))), l1,
            [l2, x2, l3, x3, l4, x4, l5, x5, l6]);
  }

  /** The pieces of the heartbeat, joined, give the hand-written text. */
  lemma HeartbeatConcat(id: string, i: string, p: string, ip: string, v: string)
    ensures Concat(["xpl-stat", "\n{\n"] + ["hop", "=", "1", "\n", "source", "=", id, "\n", "target", "=", "*", "\n"]
                   + ["}\n", "hbeat.app", "\n{\n"]
                   + ["interval", "=", i, "\n", "port", "=", p, "\n", "remote-ip", "=", ip, "\n", "version", "=", v, "\n"]
                   + ["}\n"])
         == "xpl-stat\n{\nhop=1\nsource=" + id + ("\ntarget=*\n" + "}\nhbeat.app\n{\ninterval=")
            + i + "\nport=" + p + "\nremote-ip=" + ip + "\nversion=" + v + "\n}\n"
  {
    var h1, h2 := ["hop", "=", "1", "\n", "source", "="], ["\n", "target", "=", "*", "\n"];
    var b1, b2, b3, b4, b5 := ["interval", "="], ["\n", "port", "="], ["\n", "remote-ip", "="], ["\n", "version", "="], ["\n"];
    var p0, p1, p2 := ["xpl-stat", "\n{\n"], ["}\n", "hbeat.app", "\n{\n"], ["}\n"];
    HeartbeatLists(id, i, p, ip, v);
    Reassoc(p0, h1, id, h2, p1, b1, i, b2, p, b3, ip, b4, v, b5, p2);
    HeadLiteral();
    MiddleLiteral();
    ShortLiterals();
    Regroup11(p0 + h1, h2 + p1 + b1, b2, b3, b4, b5 + p2,
                  "xpl-stat\n{\nhop=1\nsource=", ("\ntarget=*\n" + "}\nhbeat.app\n{\ninterval="),
                  "\nport=", "\nremote-ip=", "\nversion=", "\n}\n", id, i, p, ip, v);
    Chain11("xpl-stat\n{\nhop=1\nsource=", id, ("\ntarget=*\n" + "}\nhbeat.app\n{\ninterval="),
            i, "\nport=", p, "\nremote-ip=", ip, "\nversion=", v, "\n}\n");
  }

  /** The heartbeat's pieces, cut at the variables. */
  lemma HeartbeatLists(id: string, i: string, p: string, ip: string, v: string)
    ensures ["hop", "=", "1", "\n", "source", "=", id, "\n", "target", "=", "*", "\n"]
         == ["hop", "=", "1", "\n", "source", "="] + [id] + ["\n", "target", "=", "*", "\n"]
    ensures ["interval", "=", i, "\n", "port", "=", p, "\n", "remote-ip", "=", ip, "\n", "version", "=", v, "\n"]
         == ["interval", "="] + [i] + ["\n", "port", "="] + [p] + ["\n", "remote-ip", "="] + [ip]
          + ["\n", "version", "="] + [v] + ["\n"]
    ensures ["xpl-stat", "\n{\n"] + ["hop", "=", "1", "\n", "source", "="]
         == ["xpl-stat", "\n{\n", "hop", "=", "1", "\n", "source", "="]
    ensures ["\n", "target", "=", "*", "\n"] + ["}\n", "hbeat.app", "\n{\n"] + ["interval", "="]
         == ["\n", "target", "=", "*", "\n", "}\n", "hbeat.app", "\n{\n", "interval", "="]
    ensures ["\n"] + ["}\n"] == ["\n", "}\n"]
  {
  }

  lemma Reassoc<T>(p0: seq<T>, h1: seq<T>, id: T, h2: seq<T>, p1: seq<T>, b1: seq<T>, i: T, b2: seq<T>, p: T,
                   b3: seq<T>, ip: T, b4: seq<T>, v: T, b5: seq<T>, p2: seq<T>)
    ensures p0 + (h1 + [id] + h2) + p1 + (b1 + [i] + b2 + [p] + b3 + [ip] + b4 + [v] + b5) + p2
         == (p0 + h1) + [id] + ((h2 + p1 + b1) + [i] + (b2 + [p] + (b3 + [ip] + (b4 + [v] + (b5 + p2)))))
  {
  }

  /** The heartbeat layout for any message with the heartbeat's type,
      schema and block pieces. */
  lemma HeartbeatLayout(m: Message, id: string, i: string, p: string, ip: string, v: string)
    requires m.messageType == "xpl-stat" && m.messageSchema == "hbeat.app"
    requires BlockPieces(SortedKeys(m.headers.Keys), m.headers)
          == ["hop", "=", "1", "\n", "source", "=", id, "\n", "target", "=", "*", "\n"]
    requires BlockPieces(SortedKeys(m.body.Keys), m.body)
          == ["interval", "=", i, "\n", "port", "=", p, "\n", "remote-ip", "=", ip, "\n", "version", "=", v, "\n"]
    ensures ToString(m)
         == "xpl-stat\n{\nhop=1\nsource=" + id + ("\ntarget=*\n" + "}\nhbeat.app\n{\ninterval=")
            + i + "\nport=" + p + "\nremote-ip=" + ip + "\nversion=" + v + "\n}\n"
  {
    ToStringPieces(m);
    HeartbeatConcat(id, i, p, ip, v);
  }

  /** The hand-written heartbeat text is exactly what to_string writes for
      the heartbeat message: its keys are listed in map order. */
  lemma HeartbeatTextIsToString(s: Service)
    ensures HeartbeatText(s) == ToString(HeartbeatMessage(s))
  {
    HeartbeatHeaderPieces(s);
    HeartbeatBodyPieces(s);
    HeartbeatLayout(HeartbeatMessage(s), s.appId, Decimal(HeartbeatPeriod / 60), Decimal(s.port), s.ip, s.version);
  }

  // ---------------------------------------------------------------------
  // Incoming messages

  /** The message names us, or everybody, as its target. */
  predicate Addressed(s: Service, m: Message) {
    "target" in m.headers && (m.headers["target"] == "*" || m.headers["target"] == s.appId)
  }

  /** While not connected, a heartbeat without a `source` header makes the
      source lookup throw, which discards the whole message. */
  predicate SourceMissing(s: Service, m: Message) {
    !s.connected && m.messageSchema == "hbeat.app" && "source" !in m.headers
  }

  /** Our own heartbeat, echoed back by a hub. */
  predicate IsOwnHeartbeat(s: Service, m: Message) {
    m.messageSchema == "hbeat.app" && "source" in m.headers && m.headers["source"] == s.appId
  }

  /** The handler handle_message finds for `m`, if any. */
  function HandlerFor(s: Service, m: Message): Option<Handler> {
    var key := (m.messageType, m.messageSchema);
    if key in s.handlers then Some(s.handlers[key]) else None
  }

  /** The outcome of handle_message: the new service state, and the
      application handler it invoked with the message, if any. */
  datatype Handled = Handled(service: Service, callback: Option<string>)

  function HandleMessage(s: Service, m: Message): (r: Handled)
    ensures !Addressed(s, m) || SourceMissing(s, m) ==> r == Handled(s, None)
    ensures r.service.connected <==> s.connected || (Addressed(s, m) && IsOwnHeartbeat(s, m))
    ensures r.service == s.(connected := r.service.connected, sent := r.service.sent)
    ensures r.callback.Some? <==>
      Addressed(s, m) && !SourceMissing(s, m) && HandlerFor(s, m).Some? && HandlerFor(s, m).value.Callback?
    ensures r.callback.Some? ==> HandlerFor(s, m) == Some(Callback(r.callback.value))
    ensures r.service.sent == s.sent + (
      if Addressed(s, m) && !SourceMissing(s, m) && HandlerFor(s, m) == Some(HeartbeatRequest)
      then [HeartbeatText(s)] else [])
  {
    if "target" !in m.headers then Handled(s, None)
    else
      var target := m.headers["target"];
      if !(target == "*" || target == s.appId) then Handled(s, None)
      else if !s.connected && m.messageSchema == "hbeat.app" && "source" !in m.headers then Handled(s, None)
      else
        var s1 := if !s.connected && m.messageSchema == "hbeat.app" && m.headers["source"] == s.appId
                  then s.(connected := true) else s;
        var key := (m.messageType, m.messageSchema);
        if key !in s1.handlers then Handled(s1, None)
        else
          match s1.handlers[key]
          case Unset => Handled(s1, None)
          case HeartbeatRequest => Handled(SendHeartbeat(s1), None)
          case Callback(name) => Handled(s1, Some(name))
  }

  /** The receive path of start_read: split the datagram on newlines
      (dropping empty lines), feed a fresh parser, and handle the message
      if the parser reached Ready. */
  function Receive(s: Service, datagram: string): (r: Handled)
    ensures r.service == s.(connected := r.service.connected, sent := r.service.sent)
    ensures r != Handled(s, None) ==>
      var p := FeedLines(Fresh(), Tokenize(datagram));
      IsReady(p) && Addressed(s, GetMessage(p)) && !SourceMissing(s, GetMessage(p))
    ensures r.service.connected && !s.connected ==>
      IsOwnHeartbeat(s, GetMessage(FeedLines(Fresh(), Tokenize(datagram))))
  {
    var p := FeedLines(Fresh(), Tokenize(datagram));
    if IsReady(p) then HandleMessage(s, GetMessage(p)) else Handled(s, None)
  }

  /** Hearing our own heartbeat back connects us: the text
      send_heartbeat_message writes parses to a broadcast hbeat.app
      message with our id as its source. */
  lemma OwnHeartbeatConnects(s: Service)
    requires TextSafe(s.appId) && TextSafe(s.ip) && TextSafe(s.version)
    ensures Receive(s, HeartbeatText(s)).service.connected
  {
    HeartbeatTextIsToString(s);
    HeartbeatWireSafe(s);
    ReceiveToString(s, HeartbeatMessage(s));
  }

  /** Any wire-safe message, received as to_string renders it, is handled as itself. */
  lemma ReceiveToString(s: Service, m: Message)
    requires WireSafe(m)
    ensures Receive(s, ToString(m)) == HandleMessage(s, m)
  {
    RoundTrip(m);
  }

  lemma HeartbeatWireSafe(s: Service)
    requires TextSafe(s.appId) && TextSafe(s.ip) && TextSafe(s.version)
    ensures WireSafe(HeartbeatMessage(s))
  {
    var m := HeartbeatMessage(s);
    DecimalSafe(HeartbeatPeriod / 60);
    DecimalSafe(s.port);
    HeartbeatLiteralsSafe();
    MapSafeUpdate(map[], "hop", "1");
    MapSafeUpdate(map["hop" := "1"], "source", s.appId);
    MapSafeUpdate(map["hop" := "1", "source" := s.appId], "target", "*");
    var i, p := Decimal(HeartbeatPeriod / 60), Decimal(s.port);
    MapSafeUpdate(map[], "interval", i);
    MapSafeUpdate(map["interval" := i], "port", p);
    MapSafeUpdate(map["interval" := i, "port" := p], "remote-ip", s.ip);
    MapSafeUpdate(map["interval" := i, "port" := p, "remote-ip" := s.ip], "version", s.version);
  }

  lemma MapSafeUpdate(m: map<string, string>, k: string, v: string)
    requires MapSafe(m) && KeySafe(k) && TextSafe(v)
    ensures MapSafe(m[k := v])
  {
  }

  lemma HeartbeatLiteralsSafe()
    ensures TextSafe(StatusType) && StatusType != "{"
    ensures TextSafe("hbeat.app") && "hbeat.app" != "{"
    ensures TextSafe("1") && TextSafe("*")
    ensures KeySafe("hop") && KeySafe("source") && KeySafe("target")
    ensures KeySafe("interval") && KeySafe("port") && KeySafe("remote-ip") && KeySafe("version")
  {
    assert StatusType[0] == 'x' && StatusType[7] == 't';
    assert "hbeat.app"[0] == 'h' && "hbeat.app"[8] == 'p';
    assert "1"[0] == '1' && "*"[0] == '*';
  }

  lemma DecimalSafe(n: nat)
    ensures TextSafe(Decimal(n))
  {
    var d := Decimal(n);
    assert !IsSpace(d[0]) && !IsSpace(d[|d| - 1]);
  }

  /** A heartbeat request addressed to us is answered with one heartbeat
      (handler table as the constructor leaves it, or any table that keeps
      the built-in entry). */
  lemma HeartbeatRequestAnswered(s: Service, m: Message)
    requires (CommandType, "hbeat.request") in s.handlers
    requires s.handlers[(CommandType, "hbeat.request")] == HeartbeatRequest
    requires m.messageType == CommandType && m.messageSchema == "hbeat.request" && Addressed(s, m)
    ensures HandleMessage(s, m).service.sent == s.sent + [HeartbeatText(s)]
    ensures HandleMessage(s, m).callback == None
  {
  }

  /** A registered application handler is called with every message
      addressed to us that has its type and schema. */
  lemma RegisteredHandlerCalled(s: Service, m: Message, name: string)
    requires Addressed(s, m) && !SourceMissing(s, m)
    ensures HandleMessage(Register(s, m.messageType, m.messageSchema, Callback(name)), m).callback == Some(name)
  {
  }

  // ---------------------------------------------------------------------
  // The heartbeat schedule

  /** What one expiry of the heartbeat timer does: how many heartbeats it
      sends, what the timer does next, and how far the deadline moves. */
  datatype Tick = Tick(heartbeats: nat, next: Timer, delay: nat)

  /** heartbeat(): one heartbeat, then the regular or the lonely period. */
  function RegularTick(connected: bool): (t: Tick)
    ensures t.heartbeats == 1 && t.next == Regular
    ensures t.delay == if connected then HeartbeatPeriod else LonelyPeriod
  {
    Tick(1, Regular, if connected then HeartbeatPeriod else LonelyPeriod)
  }

  /** discovery_heartbeat(counter): one heartbeat; then either another
      discovery tick 3 s later, or, once connected or after
      MaxDiscoveryCount ticks, a direct call of heartbeat(), which sends a
      second heartbeat and arms the regular timer. */
  function DiscoveryTick(connected: bool, counter: nat): (t: Tick)
    ensures !connected && counter < MaxDiscoveryCount ==>
      t == Tick(1, Discovery(counter + 1), DiscoveryPeriod)
    ensures connected ==> t == Tick(2, Regular, HeartbeatPeriod)
    ensures !connected && counter >= MaxDiscoveryCount ==> t == Tick(2, Regular, LonelyPeriod)
  {
    if counter >= MaxDiscoveryCount || connected then
      var h := RegularTick(connected);
      Tick(1 + h.heartbeats, h.next, h.delay)
    else
      Tick(1, Discovery(counter + 1), DiscoveryPeriod)
  }

  function Repeat(x: string, n: nat): (r: seq<string>)
    ensures |r| == n && forall i :: 0 <= i < n ==> r[i] == x
  {
    if n == 0 then [] else [x] + Repeat(x, n - 1)
  }

  /** run(): one heartbeat now, and the first discovery tick 3 s later. */
  function Run(s: Service, now: nat): (r: Service)
    ensures r.sent == s.sent + [HeartbeatText(s)]
    ensures r.timer == Discovery(0) && r.deadline == now + DiscoveryPeriod
    ensures r == s.(sent := r.sent, timer := r.timer, deadline := r.deadline)
  {
    s.(sent := s.sent + [HeartbeatText(s)], timer := Discovery(0), deadline := now + DiscoveryPeriod)
  }

  /** The tick the armed timer runs when it expires. */
  function NextTick(s: Service): Tick
    requires s.timer != Unarmed
  {
    match s.timer
    case Discovery(c) => DiscoveryTick(s.connected, c)
    case Regular => RegularTick(s.connected)
  }

  /** The timer handler. A failed wait throws out of the event loop, which
      ends the service: None. Each new deadline is the old deadline plus the
      period, not the current time plus the period. */
  function OnTimer(s: Service, failed: bool): (r: Option<Service>)
    requires s.timer != Unarmed
    ensures failed <==> r == None
    ensures r.Some? ==> r.value.timer != Unarmed && r.value.deadline > s.deadline
    ensures r.Some? ==> r.value == s.(sent := r.value.sent, timer := r.value.timer, deadline := r.value.deadline)
    ensures r.Some? ==>
      && r.value.sent == s.sent + Repeat(HeartbeatText(s), NextTick(s).heartbeats)
      && r.value.timer == NextTick(s).next
      && r.value.deadline == s.deadline + NextTick(s).delay
  {
    if failed then None
    else
      var t := NextTick(s);
      Some(s.(sent := s.sent + Repeat(HeartbeatText(s), t.heartbeats), timer := t.next, deadline := s.deadline + t.delay))
  }

  /** `n` timer expiries without error. */
  function Ticks(s: Service, n: nat): (r: Service)
    requires s.timer != Unarmed
    ensures r.timer != Unarmed
    ensures r == s.(sent := r.sent, timer := r.timer, deadline := r.deadline)
    decreases n
  {
    if n == 0 then s else Ticks(OnTimer(s, false).value, n - 1)
  }

  lemma {:induction false} TicksSplit(s: Service, a: nat, b: nat)
    requires s.timer != Unarmed
    ensures Ticks(s, a + b) == Ticks(Ticks(s, a), b)
    decreases a
  {
    if a > 0 {
      TicksSplit(OnTimer(s, false).value, a - 1, b);
    }
  }

  /** While nobody echoes our heartbeat, discovery ticks come every 3 s,
      one heartbeat each, for counters 0 to MaxDiscoveryCount. */
  lemma {:induction false} LonelyDiscovery(s: Service, now: nat, k: nat)
    requires !s.connected && k <= MaxDiscoveryCount
    ensures Ticks(Run(s, now), k)
         == Run(s, now).(timer := Discovery(k), deadline := now + DiscoveryPeriod * (k + 1),
                         sent := s.sent + Repeat(HeartbeatText(s), k + 1))
  {
    if k == 0 {
      assert Repeat(HeartbeatText(s), 1) == [HeartbeatText(s)];
    } else {
      LonelyDiscovery(s, now, k - 1);
      TicksSplit(Run(s, now), k - 1, 1);
      var h := HeartbeatText(s);
      assert Repeat(h, k) + Repeat(h, 1) == Repeat(h, k + 1) by { RepeatAppend(h, k, 1); }
    }
  }

  lemma {:induction false} RepeatAppend(x: string, a: nat, b: nat)
    ensures Repeat(x, a) + Repeat(x, b) == Repeat(x, a + b)
  {
    assert forall i :: 0 <= i < a + b ==> (Repeat(x, a) + Repeat(x, b))[i] == x;
  }

  /** The hand-over tick: the discovery tick with counter MaxDiscoveryCount
      sends two heartbeats and arms the lonely period, 123 s after run()
      (the counter starts at 0, so 41 discovery ticks fire in all). */
  lemma LonelyHandOver(s: Service, now: nat)
    requires !s.connected
    ensures Ticks(Run(s, now), MaxDiscoveryCount + 1)
         == Run(s, now).(timer := Regular,
                         deadline := now + DiscoveryPeriod * (MaxDiscoveryCount + 1) + LonelyPeriod,
                         sent := s.sent + Repeat(HeartbeatText(s), MaxDiscoveryCount + 3))
    ensures now + DiscoveryPeriod * (MaxDiscoveryCount + 1) == now + 123
  {
    LonelyDiscovery(s, now, MaxDiscoveryCount);
    TicksSplit(Run(s, now), MaxDiscoveryCount, 1);
    RepeatAppend(HeartbeatText(s), MaxDiscoveryCount + 1, 2);
  }

  /** Once connected, the next tick, discovery or regular, arms the
      5-minute period; a discovery tick then sends two heartbeats. */
  lemma ConnectedTick(s: Service)
    requires s.connected && s.timer != Unarmed
    ensures OnTimer(s, false).value.timer == Regular
    ensures OnTimer(s, false).value.deadline == s.deadline + HeartbeatPeriod
    ensures OnTimer(s, false).value.sent == s.sent + Repeat(HeartbeatText(s), if s.timer.Discovery? then 2 else 1)
  {
  }

  /** Not connected, the regular timer sends one heartbeat every 30 s. */
  lemma LonelyTick(s: Service)
    requires !s.connected && s.timer == Regular
    ensures OnTimer(s, false) == Some(s.(sent := s.sent + [HeartbeatText(s)], deadline := s.deadline + LonelyPeriod))
  {
    assert Repeat(HeartbeatText(s), 1) == [HeartbeatText(s)];
  }

  // ---------------------------------------------------------------------
  // `connected` is never reset

  lemma ConnectedStays(s: Service, m: Message, datagram: string, failed: bool, now: nat)
    requires s.connected
    ensures HandleMessage(s, m).service.connected
    ensures Receive(s, datagram).service.connected
    ensures Send(s, m).connected && Run(s, now).connected
    ensures s.timer != Unarmed && !failed ==> OnTimer(s, failed).value.connected
  {
  }
}
