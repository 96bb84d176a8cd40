/**
 The SOCKS5 entry: internal/proxy/context_socks5.go over internal/proxy/target_addr.go
 (RFC 1928 sections 3 to 5, RFC 1929 section 2).

 What the context does is a log of events: bytes written to the peer, the connect request sent to the outlet, and
 payload sent upstream (before compression and encryption, which the Lz4 module undoes).
 */
module Socks5 {
  import opened ByteStrings
  import opened Incremental

  const MAX_BUFFERED := 512 * 1024

  datatype Auth = Auth(username: Bytes, password: Bytes) {
    predicate Wanted() {
      username != [] || password != []
    }
  }

  datatype Target = Target(kind: byte, host: Bytes, port: nat)

  datatype Event =
    | Reply(bytes: Bytes)
    | ConnectTo(target: Target, isTcp: bool)
    | Upstream(data: Bytes)
    | UpstreamTo(target: Target, data: Bytes)

  /** Failed stands for "a handler returned an error", upon which the inlet closes the session. */
  datatype Phase = Init | Verify | Connect | Connecting(isTcp: bool) | RunTcp | RunUdp | Closing | Failed {
    predicate Handshaking() {
      Init? || Verify? || Connect?
    }
  }

  // ---------------------------------------------------------------- addresses

  datatype AddrRead = Short | BadKind | Addr(target: Target, size: nat)

  function Word(hi: byte, lo: byte): nat {
    var h: int := hi;
    h * 256 + lo
  }

  function ReadTargetAddr(data: Bytes, kind: byte): AddrRead {
    if kind == 1 then
      if |data| < 6 then Short else Addr(Target(kind, data[..4], Word(data[4], data[5])), 6)
    else if kind == 4 then
      if |data| < 18 then Short else Addr(Target(kind, data[..16], Word(data[16], data[17])), 18)
    else if kind == 3 then
      if |data| < 2 then Short
      else
        var size: nat := data[0];
        if |data| < 1 + size + 2 then Short
        else Addr(Target(kind, data[1..1 + size], Word(data[1 + size], data[2 + size])), 1 + size + 2)
    else BadKind
  }

  predicate ValidTarget(t: Target) {
    && t.port < 0x1_0000
    && ((t.kind == 1 && |t.host| == 4) || (t.kind == 4 && |t.host| == 16) || (t.kind == 3 && |t.host| < 256))
  }

  function AddrBytes(t: Target): Bytes
    requires ValidTarget(t)
  {
    (if t.kind == 3 then [|t.host|] else []) + t.host + [t.port / 256, t.port % 256]
  }

  lemma ReadsAddrBytes(t: Target, rest: Bytes)
    requires ValidTarget(t)
    ensures ReadTargetAddr(AddrBytes(t) + rest, t.kind) == Addr(t, |AddrBytes(t)|)
  {
    var b := AddrBytes(t) + rest;
    assert Word(t.port / 256, t.port % 256) == t.port;
    if t.kind == 3 {
      assert b[1..1 + |t.host|] == t.host;
    } else {
      assert b[..|t.host|] == t.host;
    }
  }

  lemma ReadTargetAddrStable(data: Bytes, kind: byte, more: Bytes)
    requires ReadTargetAddr(data, kind) != Short
    ensures ReadTargetAddr(data + more, kind) == ReadTargetAddr(data, kind)
    ensures var r := ReadTargetAddr(data, kind); r.Addr? ==> 0 < r.size <= |data|
  {
    var r := ReadTargetAddr(data, kind);
    if kind == 1 {
      assert (data + more)[..4] == data[..4];
    } else if kind == 4 {
      assert (data + more)[..16] == data[..16];
    } else if kind == 3 {
      var size: nat := data[0];
      assert (data + more)[1..1 + size] == data[1..1 + size];
    }
  }

  // ---------------------------------------------------------------- the handshake as a parser

  const NO_METHOD: byte := 0xff

  /** The first offered method that fits the configured credentials. */
  function ChooseMethod(auth: Auth, methods: Bytes): (m: byte)
    ensures m == if (if auth.Wanted() then 2 else 0) in methods then (if auth.Wanted() then 2 else 0) else NO_METHOD
  {
    if methods == [] then NO_METHOD
    else if !auth.Wanted() && methods[0] == 0 then 0
    else if auth.Wanted() && methods[0] == 2 then 2
    else ChooseMethod(auth, methods[1..])
  }

  function CommandReply(code: byte): Bytes {
    [5, code, 0, 1, 0, 0, 0, 0, 0, 0]
  }

  function ParseInit(auth: Auth, b: Bytes): Step<Phase, Event> {
    if |b| < 3 then Wait
    else if b[0] != 5 then Halt(Closing, [Reply([5, NO_METHOD])])
    else
      var n: nat := b[1];
      if |b| < 2 + n then Wait
      else
        var chosen := ChooseMethod(auth, b[2..2 + n]);
        if chosen == NO_METHOD then Halt(Closing, [Reply([5, chosen])])
        else Advance(2 + n, if chosen == 0 then Connect else Verify, [Reply([5, chosen])])
  }

  function ParseVerify(auth: Auth, b: Bytes): Step<Phase, Event> {
    if |b| < 5 then Wait
    else if b[0] != 1 then Halt(Closing, [Reply([1, 1])])
    else
      var ulen: nat := b[1];
      if |b| < 2 + ulen + 1 then Wait
      else
        var plenIdx := 2 + ulen;
        var plen: nat := b[plenIdx];
        if |b| < plenIdx + 1 + plen then Wait
        else if b[2..2 + ulen] == auth.username && b[plenIdx + 1..plenIdx + 1 + plen] == auth.password then
          Advance(plenIdx + 1 + plen, Connect, [Reply([1, 0])])
        else Halt(Closing, [Reply([1, 1])])
  }

  function ParseConnect(b: Bytes): Step<Phase, Event> {
    if |b| < 4 then Wait
    else if b[0] != 5 || b[2] != 0 then Halt(Closing, [Reply(CommandReply(7))])
    else
      match ReadTargetAddr(b[4..], b[3])
      case BadKind => Halt(Failed, [])
      case Short => Wait
      case Addr(target, size) =>
        if b[1] == 1 then Advance(4 + size, Connecting(true), [ConnectTo(target, true)])
        else if b[1] == 3 then Advance(4 + size, Connecting(false), [ConnectTo(target, false)])
        else Halt(Closing, [Reply(CommandReply(7))])
  }

  function Parse(auth: Auth, phase: Phase, b: Bytes): Step<Phase, Event> {
    match phase
    case Init => ParseInit(auth, b)
    case Verify => ParseVerify(auth, b)
    case Connect => ParseConnect(b)
    case _ => Wait
  }

  function HandshakeStep(auth: Auth): Parser<Phase, Event> {
    (phase: Phase, b: Bytes) => Parse(auth, phase, b)
  }

  lemma HandshakeStepStable(auth: Auth)
    ensures Stable(HandshakeStep(auth))
  {
    forall phase: Phase, b: Bytes, more: Bytes
      ensures StableAt(HandshakeStep(auth), phase, b, more)
    {
      if phase.Init? && |b| >= 3 {
        var n: nat := b[1];
        if |b| >= 2 + n {
          assert (b + more)[2..2 + n] == b[2..2 + n];
        }
      } else if phase.Verify? && |b| >= 5 {
        var ulen: nat := b[1];
        if |b| >= 2 + ulen + 1 {
          var plen: nat := b[2 + ulen];
          if |b| >= 2 + ulen + 1 + plen {
            assert (b + more)[2..2 + ulen] == b[2..2 + ulen];
            assert (b + more)[2 + ulen + 1..2 + ulen + 1 + plen] == b[2 + ulen + 1..2 + ulen + 1 + plen];
          }
        }
      } else if phase.Connect? && |b| >= 4 {
        assert (b + more)[4..] == b[4..] + more;
        if ReadTargetAddr(b[4..], b[3]) != Short {
          ReadTargetAddrStable(b[4..], b[3], more);
        }
      }
    }
  }

  // ---------------------------------------------------------------- the whole context

  datatype Ctx = Ctx(phase: Phase, buffer: Bytes, log: seq<Event>)

  datatype Input =
    | FromPeer(payload: Bytes)
    | ConnectReply(success: bool, boundPort: Option<nat>)   // the outlet's answer; the port a UDP bind would get

  /** A datagram wrapped as RFC 1928 section 7 asks; anything else is dropped, an unknown address type is an error. */
  function AfterUdpPayload(c: Ctx, payload: Bytes): Ctx {
    if |payload| < 11 || payload[0] != 0 || payload[1] != 0 || payload[2] != 0 then c
    else
      match ReadTargetAddr(payload[4..], payload[3])
      case BadKind => Ctx(Failed, [], c.log)
      case Short => c
      case Addr(target, size) =>
        if size <= |payload[4..]| then c.(log := c.log + [UpstreamTo(target, payload[4 + size..])]) else c
  }

  function AfterSend(log: seq<Event>, payload: Bytes): seq<Event> {
    if payload == [] then log else log + [Upstream(payload)]
  }

  ghost function AfterPeerData(auth: Auth, c: Ctx, payload: Bytes): Ctx {
    match c.phase
    case Connecting(_) =>
      if |c.buffer| + |payload| > MAX_BUFFERED then Ctx(Failed, [], c.log) else c.(buffer := c.buffer + payload)
    case RunTcp => c.(log := AfterSend(c.log, payload))
    case RunUdp => AfterUdpPayload(c, payload)
    case Closing => c
    case Failed => c
    case _ =>
      if |c.buffer| + |payload| > MAX_BUFFERED then Ctx(Failed, [], c.log)
      else
        HandshakeStepStable(auth);
        var k := Feed(HandshakeStep(auth), Conf(c.phase, c.buffer, c.log, false), payload);
        Ctx(k.state, k.buffer, k.out)
  }

  function AfterConnectReply(c: Ctx, success: bool, boundPort: Option<nat>): Ctx {
    if c.phase.Failed? then c
    else if !success then Ctx(Closing, [], c.log + [Reply(CommandReply(4))])
    else if !c.phase.Connecting? then c
    else if c.phase.isTcp then Ctx(RunTcp, [], AfterSend(c.log + [Reply(CommandReply(0))], c.buffer))
    else
      match boundPort
      case None => Ctx(Closing, [], c.log + [Reply(CommandReply(4))])
      case Some(port) => Ctx(RunUdp, [], c.log + [Reply([5, 0, 0, 1, 0, 0, 0, 0, port / 256 % 256, port % 256])])
  }

  ghost function Take(auth: Auth, c: Ctx, input: Input): Ctx {
    match input
    case FromPeer(payload) => AfterPeerData(auth, c, payload)
    case ConnectReply(success, port) => AfterConnectReply(c, success, port)
  }

  ghost function Run(auth: Auth, c: Ctx, inputs: seq<Input>): Ctx
    decreases |inputs|
  {
    if inputs == [] then c else Run(auth, Take(auth, c, inputs[0]), inputs[1..])
  }

  // ---------------------------------------------------------------- any cutting, any time of the reply

  function Greeting(methods: Bytes): Bytes
    requires |methods| < 256
  {
    [5, |methods|] + methods
  }

  function CredentialBytes(u: Bytes, pw: Bytes): Bytes
    requires |u| < 256 && |pw| < 256
  {
    [1, |u|] + u + [|pw|] + pw
  }

  function Credentials(auth: Auth): Bytes
    requires |auth.username| < 256 && |auth.password| < 256
  {
    CredentialBytes(auth.username, auth.password)
  }

  /** CONNECT, or UDP ASSOCIATE. */
  function Request(t: Target, isTcp: bool): Bytes
    requires ValidTarget(t)
  {
    [5, if isTcp then 1 else 3, 0, t.kind] + AddrBytes(t)
  }

  /** The client offers the method the configuration asks for, and its credentials fit the one-byte lengths. */
  predicate WellFormed(auth: Auth, methods: Bytes, t: Target) {
    && 0 < |methods| < 256 && ValidTarget(t)
    && |auth.username| < 256 && |auth.password| < 256
    && (if auth.Wanted() then 2 else 0) in methods
  }

  /** Everything a client sends up to and including its request. */
  function Handshake(auth: Auth, methods: Bytes, t: Target, isTcp: bool): Bytes
    requires WellFormed(auth, methods, t)
  {
    Greeting(methods) + ((if auth.Wanted() then Credentials(auth) else []) + Request(t, isTcp))
  }

  function HandshakeLog(auth: Auth, t: Target, isTcp: bool): seq<Event> {
    [Reply([5, if auth.Wanted() then 2 else 0])]
    + (if auth.Wanted() then [Reply([1, 0])] else []) + [ConnectTo(t, isTcp)]
  }

  lemma ParsesGreeting(auth: Auth, methods: Bytes, rest: Bytes)
    requires 0 < |methods| < 256
    ensures Parse(auth, Init, Greeting(methods) + rest) ==
      var m := ChooseMethod(auth, methods);
      if m == NO_METHOD then Halt(Closing, [Reply([5, m])])
      else Advance(|Greeting(methods)|, if m == 0 then Connect else Verify, [Reply([5, m])])
    ensures (Greeting(methods) + rest)[|Greeting(methods)|..] == rest
  {
    var b := Greeting(methods) + rest;
    assert b[2..2 + |methods|] == methods;
  }

  lemma ParsesCredentials(auth: Auth, rest: Bytes)
    requires |auth.username| < 256 && |auth.password| < 256
    ensures Parse(auth, Verify, Credentials(auth) + rest) ==
      if |Credentials(auth) + rest| < 5 then Wait else Advance(|Credentials(auth)|, Connect, [Reply([1, 0])])
    ensures (Credentials(auth) + rest)[|Credentials(auth)|..] == rest
  {
    var b := Credentials(auth) + rest;
    var u, p := auth.username, auth.password;
    assert b[2..2 + |u|] == u;
    assert b[2 + |u|] == |p|;
    assert b[3 + |u|..3 + |u| + |p|] == p;
  }

  lemma ParsesRequest(auth: Auth, t: Target, isTcp: bool, rest: Bytes)
    requires ValidTarget(t)
    ensures Parse(auth, Connect, Request(t, isTcp) + rest)
         == Advance(|Request(t, isTcp)|, Connecting(isTcp), [ConnectTo(t, isTcp)])
    ensures (Request(t, isTcp) + rest)[|Request(t, isTcp)|..] == rest
  {
    var b := Request(t, isTcp) + rest;
    assert b[4..] == AddrBytes(t) + rest;
    ReadsAddrBytes(t, rest);
  }

  lemma DrainRequest(auth: Auth, t: Target, isTcp: bool, rest: Bytes, out: seq<Event>)
    requires ValidTarget(t) && Stable(HandshakeStep(auth))
    ensures Drain(HandshakeStep(auth), Connect, Request(t, isTcp) + rest, out)
         == Conf(Connecting(isTcp), rest, out + [ConnectTo(t, isTcp)], false)
  {
    ParsesRequest(auth, t, isTcp, rest);
    DrainOne(HandshakeStep(auth), Connect, Request(t, isTcp) + rest, out);
    DrainOne(HandshakeStep(auth), Connecting(isTcp), rest, out + [ConnectTo(t, isTcp)]);
  }

  lemma DrainHandshake(auth: Auth, methods: Bytes, t: Target, isTcp: bool, rest: Bytes)
    requires WellFormed(auth, methods, t) && Stable(HandshakeStep(auth))
    ensures Drain(HandshakeStep(auth), Init, Handshake(auth, methods, t, isTcp) + rest, [])
         == Conf(Connecting(isTcp), rest, HandshakeLog(auth, t, isTcp), false)
  {
    var p := HandshakeStep(auth);
    var request := Request(t, isTcp);
    var after := (if auth.Wanted() then Credentials(auth) else []) + request;
    var greeted := [Reply([5, if auth.Wanted() then 2 else 0])];
    Assoc(Greeting(methods), after, rest);
    ParsesGreeting(auth, methods, after + rest);
    DrainOne(p, Init, Handshake(auth, methods, t, isTcp) + rest, []);
    assert [] + greeted == greeted;
    if auth.Wanted() {
      Assoc(Credentials(auth), request, rest);
      ParsesCredentials(auth, request + rest);
      DrainOne(p, Verify, after + rest, greeted);
      DrainRequest(auth, t, isTcp, rest, greeted + [Reply([1, 0])]);
    } else {
      assert after == request;
      assert greeted + [] == greeted;
      DrainRequest(auth, t, isTcp, rest, greeted);
    }
  }

  /** A user name or a password is enough to ask for credentials; a peer that does not offer the method is told so. */
  lemma GreetingDecides(auth: Auth, methods: Bytes, rest: Bytes)
    requires 0 < |methods| < 256
    ensures Parse(auth, Init, Greeting(methods) + rest) ==
      if auth.username != [] || auth.password != [] then
        if 2 in methods then Advance(2 + |methods|, Verify, [Reply([5, 2])]) else Halt(Closing, [Reply([5, 0xff])])
      else
        if 0 in methods then Advance(2 + |methods|, Connect, [Reply([5, 0])]) else Halt(Closing, [Reply([5, 0xff])])
  {
    ParsesGreeting(auth, methods, rest);
  }

  /** A peer that speaks another version, or asks for what there is not, is told so and the session is over. */
  lemma TurnedDown(auth: Auth, b: Bytes)
    ensures |b| >= 3 && b[0] != 5 ==> Parse(auth, Init, b) == Halt(Closing, [Reply([5, 0xff])])
    ensures |b| >= 5 && b[0] != 1 ==> Parse(auth, Verify, b) == Halt(Closing, [Reply([1, 1])])
    ensures |b| >= 4 && (b[0] != 5 || b[2] != 0) ==>
      Parse(auth, Connect, b) == Halt(Closing, [Reply([5, 7, 0, 1, 0, 0, 0, 0, 0, 0])])
    ensures |b| >= 4 && b[0] == 5 && b[2] == 0 && b[3] !in {1, 3, 4} ==> Parse(auth, Connect, b) == Halt(Failed, [])
  {
  }

  lemma UnknownCommandTurnedDown(auth: Auth, t: Target, command: byte, rest: Bytes)
    requires ValidTarget(t) && command !in {1, 3}
    ensures Parse(auth, Connect, [5, command, 0, t.kind] + (AddrBytes(t) + rest))
         == Halt(Closing, [Reply([5, 7, 0, 1, 0, 0, 0, 0, 0, 0])])
  {
    var b := [5, command, 0, t.kind] + (AddrBytes(t) + rest);
    assert b[4..] == AddrBytes(t) + rest;
    ReadsAddrBytes(t, rest);
  }

  function FromPeerAll(pieces: seq<Bytes>): (r: seq<Input>)
    ensures |r| == |pieces|
  {
    seq(|pieces|, i requires 0 <= i < |pieces| => FromPeer(pieces[i]))
  }

  lemma {:induction false} RunSplit(auth: Auth, c: Ctx, a: seq<Input>, b: seq<Input>)
    ensures Run(auth, c, a + b) == Run(auth, Run(auth, c, a), b)
    decreases |a|
  {
    if a == [] {
      assert a + b == b;
    } else {
      assert (a + b)[1..] == a[1..] + b;
      RunSplit(auth, Take(auth, c, a[0]), a[1..], b);
    }
  }

  /** Until the reply arrives, reads only fill the parser's buffer: the context is the parser fed with them. */
  lemma {:induction false} BeforeReply(auth: Auth, k: Conf<Phase, Event>, pieces: seq<Bytes>)
    requires Stable(HandshakeStep(auth))
    requires k.halted <==> k.state.Closing? || k.state.Failed?
    requires !k.state.RunTcp? && !k.state.RunUdp?
    requires k.halted ==> k.buffer == []
    requires |k.buffer| + |Concat(pieces)| <= MAX_BUFFERED
    ensures Run(auth, Ctx(k.state, k.buffer, k.out), FromPeerAll(pieces))
         == var e := FeedAll(HandshakeStep(auth), k, pieces); Ctx(e.state, e.buffer, e.out)
    decreases |pieces|
  {
    if pieces != [] {
      var p := HandshakeStep(auth);
      var inputs := FromPeerAll(pieces);
      assert inputs[1..] == FromPeerAll(pieces[1..]);
      var next := Feed(p, k, pieces[0]);
      if !k.halted {
        DrainStates(auth, k.state, k.buffer + pieces[0], k.out);
        if k.state.Connecting? {
          DrainOne(p, k.state, k.buffer + pieces[0], k.out);
        }
      }
      assert Take(auth, Ctx(k.state, k.buffer, k.out), inputs[0]) == Ctx(next.state, next.buffer, next.out);
      BeforeReply(auth, next, pieces[1..]);
    }
  }

  lemma {:induction false} DrainStates(auth: Auth, phase: Phase, b: Bytes, out: seq<Event>)
    requires Stable(HandshakeStep(auth))
    requires phase.Handshaking() || phase.Connecting?
    ensures var e := Drain(HandshakeStep(auth), phase, b, out);
      && (e.halted <==> e.state.Closing? || e.state.Failed?)
      && !e.state.RunTcp? && !e.state.RunUdp? && |e.buffer| <= |b| && (e.halted ==> e.buffer == [])
    decreases |b|
  {
    StableUsed(HandshakeStep(auth), phase, b);
    match Parse(auth, phase, b)
    case Wait =>
    case Halt(_, _) =>
    case Advance(n, next, o) => DrainStates(auth, next, b[n..], out + o);
  }

  /** Under the limit, well-formed or not, the cutting of what arrives before the answer makes no difference. */
  lemma CuttingNeverMatters(auth: Auth, before: seq<Bytes>, other: seq<Bytes>)
    requires Concat(before) == Concat(other) && |Concat(before)| <= MAX_BUFFERED
    ensures Run(auth, Ctx(Init, [], []), FromPeerAll(before)) == Run(auth, Ctx(Init, [], []), FromPeerAll(other))
  {
    HandshakeStepStable(auth);
    var start := Conf(Init, [], [], false);
    BeforeReply(auth, start, before);
    BeforeReply(auth, start, other);
    AnyCutting(HandshakeStep(auth), start, before);
    AnyCutting(HandshakeStep(auth), start, other);
  }

  /** The payload sent upstream, in order. */
  function UpstreamBytes(log: seq<Event>): Bytes {
    if log == [] then []
    else (if log[0].Upstream? then log[0].data else []) + UpstreamBytes(log[1..])
  }

  /** Everything but payload: what the peer is told and what the outlet is asked. */
  function Control(log: seq<Event>): seq<Event> {
    if log == [] then []
    else (if log[0].Upstream? then [] else [log[0]]) + Control(log[1..])
  }

  lemma {:induction false} LogSplit(a: seq<Event>, b: seq<Event>)
    ensures UpstreamBytes(a + b) == UpstreamBytes(a) + UpstreamBytes(b)
    ensures Control(a + b) == Control(a) + Control(b)
  {
    if a == [] {
      assert a + b == b;
    } else {
      assert (a + b)[1..] == a[1..] + b;
      LogSplit(a[1..], b);
    }
  }

  lemma {:induction false} AfterReply(auth: Auth, log: seq<Event>, pieces: seq<Bytes>)
    ensures var e := Run(auth, Ctx(RunTcp, [], log), FromPeerAll(pieces));
      && e.phase == RunTcp && e.buffer == []
      && Control(e.log) == Control(log)
      && UpstreamBytes(e.log) == UpstreamBytes(log) + Concat(pieces)
    decreases |pieces|
  {
    if pieces != [] {
      assert FromPeerAll(pieces)[1..] == FromPeerAll(pieces[1..]);
      AfterReply(auth, AfterSend(log, pieces[0]), pieces[1..]);
      SendAppends(log, pieces[0]);
      Assoc(UpstreamBytes(log), pieces[0], Concat(pieces[1..]));
    }
  }

  lemma SendAppends(log: seq<Event>, payload: Bytes)
    ensures UpstreamBytes(AfterSend(log, payload)) == UpstreamBytes(log) + payload
    ensures Control(AfterSend(log, payload)) == Control(log)
  {
    if payload != [] {
      var sent := [Upstream(payload)];
      LogSplit(log, sent);
      assert sent[1..] == [];
      assert payload + [] == payload;
      assert Control(log) + [] == Control(log);
    } else {
      assert UpstreamBytes(log) + payload == UpstreamBytes(log);
    }
  }

  /** Where the outlet's answer leads a session whose request has been passed on, with these bytes after it. */
  function Answered(auth: Auth, t: Target, isTcp: bool, early: Bytes, success: bool, port: Option<nat>): Ctx {
    var asked := HandshakeLog(auth, t, isTcp);
    if !success || (!isTcp && port.None?) then Ctx(Closing, [], asked + [Reply([5, 4, 0, 1, 0, 0, 0, 0, 0, 0])])
    else if isTcp then Ctx(RunTcp, [], AfterSend(asked + [Reply([5, 0, 0, 1, 0, 0, 0, 0, 0, 0])], early))
    else
      var bound := [5, 0, 0, 1, 0, 0, 0, 0, port.value / 256 % 256, port.value % 256];
      Ctx(RunUdp, [], asked + [Reply(bound)])
  }

  /**
   Whatever the cutting of a well-formed CONNECT or UDP ASSOCIATE stream into reads: the request is passed on once, and
   the answer, good or bad, leads where it should. What follows an ASSOCIATE request on its connection is dropped.
   */
  lemma EveryCuttingAnswered(auth: Auth, methods: Bytes, t: Target, isTcp: bool, early: Bytes, before: seq<Bytes>,
      success: bool, port: Option<nat>)
    requires WellFormed(auth, methods, t)
    requires Concat(before) == Handshake(auth, methods, t, isTcp) + early && |Concat(before)| <= MAX_BUFFERED
    ensures Run(auth, Ctx(Init, [], []), FromPeerAll(before))
         == Ctx(Connecting(isTcp), early, HandshakeLog(auth, t, isTcp))
    ensures Run(auth, Ctx(Init, [], []), FromPeerAll(before) + [ConnectReply(success, port)])
         == Answered(auth, t, isTcp, early, success, port)
  {
    HandshakeStepStable(auth);
    var p := HandshakeStep(auth);
    var start := Conf(Init, [], [], false);
    var mid := Ctx(Connecting(isTcp), early, HandshakeLog(auth, t, isTcp));
    BeforeReply(auth, start, before);
    AnyCutting(p, start, before);
    assert [] + Concat(before) == Concat(before);
    DrainHandshake(auth, methods, t, isTcp, early);
    assert Run(auth, Ctx(Init, [], []), FromPeerAll(before)) == mid;
    RunSplit(auth, Ctx(Init, [], []), FromPeerAll(before), [ConnectReply(success, port)]);
    assert Run(auth, mid, [ConnectReply(success, port)]) == Take(auth, mid, ConnectReply(success, port));
  }

  /**
   Whatever the cutting of a CONNECT stream into reads and whenever, after the request, the outlet's answer comes: the
   peer is told the same, the outlet is asked the same, and upstream gets exactly the bytes after the request, once
   and in order. The bytes that arrive before the answer are those the 512 KiB limit applies to.
   */
  lemma EveryCuttingConnects(
      auth: Auth, methods: Bytes, t: Target, early: Bytes, before: seq<Bytes>, after: seq<Bytes>, port: Option<nat>)
    requires WellFormed(auth, methods, t)
    requires Concat(before) == Handshake(auth, methods, t, true) + early && |Concat(before)| <= MAX_BUFFERED
    ensures var inputs := FromPeerAll(before) + [ConnectReply(true, port)] + FromPeerAll(after);
      var e := Run(auth, Ctx(Init, [], []), inputs);
      && e.phase == RunTcp && e.buffer == []
      && Control(e.log) == HandshakeLog(auth, t, true) + [Reply([5, 0, 0, 1, 0, 0, 0, 0, 0, 0])]
      && UpstreamBytes(e.log) == early + Concat(after)
  {
    EveryCuttingAnswered(auth, methods, t, true, early, before, true, port);
    RunSplit(auth, Ctx(Init, [], []), FromPeerAll(before) + [ConnectReply(true, port)], FromPeerAll(after));
    var told := HandshakeLog(auth, t, true) + [Reply(CommandReply(0))];
    AfterReply(auth, AfterSend(told, early), after);
    SendAppends(told, early);
    HandshakeLogIsControl(auth, t);
    assert [] + early == early;
  }

  /** A datagram as RFC 1928 section 7 wraps it. */
  function Wrapped(t: Target, data: Bytes): Bytes
    requires ValidTarget(t)
  {
    [0, 0, 0, t.kind] + (AddrBytes(t) + data)
  }

  /** A wrapped datagram goes to its target, if and only if it has the eleven bytes the handler asks for. */
  lemma DatagramUnwrappedIff(auth: Auth, c: Ctx, t: Target, data: Bytes)
    requires c.phase == RunUdp && ValidTarget(t)
    ensures AfterPeerData(auth, c, Wrapped(t, data))
         == if |Wrapped(t, data)| < 11 then c else c.(log := c.log + [UpstreamTo(t, data)])
  {
    var b := Wrapped(t, data);
    assert b[4..] == AddrBytes(t) + data;
    ReadsAddrBytes(t, data);
    assert b[4 + |AddrBytes(t)|..] == data;
  }

  /** Fragments, and datagrams whose reserved bytes are set, are dropped. */
  lemma FragmentsDropped(auth: Auth, c: Ctx, payload: Bytes)
    requires c.phase == RunUdp && |payload| >= 3 && (payload[0] != 0 || payload[1] != 0 || payload[2] != 0)
    ensures AfterPeerData(auth, c, payload) == c
  {
  }

  lemma HandshakeLogIsControl(auth: Auth, t: Target)
    ensures var told := HandshakeLog(auth, t, true) + [Reply(CommandReply(0))];
      Control(told) == told && UpstreamBytes(told) == []
  {
    var told := HandshakeLog(auth, t, true) + [Reply(CommandReply(0))];
    OnlyControl(told);
  }

  lemma {:induction false} OnlyControl(log: seq<Event>)
    requires forall i :: 0 <= i < |log| ==> !log[i].Upstream?
    ensures Control(log) == log && UpstreamBytes(log) == []
  {
    if log != [] {
      OnlyControl(log[1..]);
    }
  }

  /**
   A client that waits for the answer to its credentials gets it if and only if user name and password are together
   at least two bytes long: the handler does not look at fewer than five bytes.
   */
  lemma CredentialsAnsweredAtOnceIff(auth: Auth, methods: Bytes)
    requires auth.Wanted() && 0 < |methods| < 256 && 2 in methods
    requires |auth.username| < 256 && |auth.password| < 256
    ensures Stable(HandshakeStep(auth))
    ensures var e := Drain(HandshakeStep(auth), Init, Greeting(methods) + Credentials(auth), []);
      && (e.state == Connect <==> |auth.username| + |auth.password| >= 2)
      && (e.state == Connect ==> e.out == [Reply([5, 2]), Reply([1, 0])])
      && (e.state != Connect ==> e.state == Verify && e.out == [Reply([5, 2])])
  {
    HandshakeStepStable(auth);
    var p := HandshakeStep(auth);
    ParsesGreeting(auth, methods, Credentials(auth));
    DrainOne(p, Init, Greeting(methods) + Credentials(auth), []);
    assert [] + [Reply([5, 2])] == [Reply([5, 2])];
    ParsesCredentials(auth, []);
    assert Credentials(auth) + [] == Credentials(auth);
    DrainOne(p, Verify, Credentials(auth), [Reply([5, 2])]);
    DrainOne(p, Connect, [], [Reply([5, 2])] + [Reply([1, 0])]);
  }

  // ---------------------------------------------------------------- nobody gets past the credentials

  /** Only the configured user name and password are let through; any others are turned down. */
  lemma CredentialsDecide(auth: Auth, u: Bytes, pw: Bytes, rest: Bytes)
    requires |u| < 256 && |pw| < 256 && |u| + |pw| >= 2
    ensures Parse(auth, Verify, CredentialBytes(u, pw) + rest) ==
      if u == auth.username && pw == auth.password then Advance(|CredentialBytes(u, pw)|, Connect, [Reply([1, 0])])
      else Halt(Closing, [Reply([1, 1])])
  {
    var b := CredentialBytes(u, pw) + rest;
    assert b[2..2 + |u|] == u;
    assert b[2 + |u|] == |pw|;
    assert b[3 + |u|..3 + |u| + |pw|] == pw;
  }

  /** What the peer has sent so far. */
  function PeerBytes(inputs: seq<Input>): Bytes {
    if inputs == [] then []
    else PeerBytes(inputs[..|inputs| - 1])
         + if inputs[|inputs| - 1].FromPeer? then inputs[|inputs| - 1].payload else []
  }

  predicate Fit(auth: Auth) {
    |auth.username| < 256 && |auth.password| < 256
  }

  /** A greeting that offers the method, and then nothing but the configured credentials. */
  predicate Introduces(auth: Auth, methods: Bytes, sent: Bytes) {
    Fit(auth) && 0 < |methods| < 256 && 2 in methods
    && Greeting(methods) + Credentials(auth) <= sent
  }

  ghost predicate Introduced(auth: Auth, sent: Bytes) {
    exists methods: Bytes :: Introduces(auth, methods, sent)
  }

  predicate Greets(methods: Bytes, b: Bytes, sent: Bytes) {
    0 < |methods| < 256 && 2 in methods && Greeting(methods) + b == sent
  }

  predicate AsksOutlet(log: seq<Event>) {
    exists i :: 0 <= i < |log| && !log[i].Reply?
  }

  /** Past the check of the credentials, or having asked the outlet for anything, only after the right ones. */
  ghost predicate Checked(auth: Auth, phase: Phase, b: Bytes, log: seq<Event>, sent: Bytes) {
    && (AsksOutlet(log) ==> Introduced(auth, sent))
    && (phase.Init? ==> b == sent)
    && (phase.Verify? ==> exists methods: Bytes :: Greets(methods, b, sent))
    && (phase.Connect? || phase.Connecting? || phase.RunTcp? || phase.RunUdp? ==> Introduced(auth, sent))
  }

  lemma InitKeepsChecked(auth: Auth, b: Bytes, log: seq<Event>)
    requires auth.Wanted() && Checked(auth, Init, b, log, b) && Parse(auth, Init, b).Advance?
    ensures var r := Parse(auth, Init, b);
      r.used <= |b| && Checked(auth, r.next, b[r.used..], log + r.out, b)
  {
    var r := Parse(auth, Init, b);
    var n: nat := b[1];
    var methods := b[2..2 + n];
    assert 2 in methods && r.next == Verify;
    assert Greeting(methods) + b[2 + n..] == b;
    assert Greets(methods, b[r.used..], b);
    RepliesAskNothing(log, r.out);
  }

  lemma RepliesAskNothing(log: seq<Event>, out: seq<Event>)
    requires |out| == 1 && out[0].Reply?
    ensures AsksOutlet(log + out) <==> AsksOutlet(log)
  {
    if AsksOutlet(log) {
      var i :| 0 <= i < |log| && !log[i].Reply?;
      assert !(log + out)[i].Reply?;
    }
  }

  lemma VerifyKeepsChecked(auth: Auth, b: Bytes, log: seq<Event>, sent: Bytes)
    requires Checked(auth, Verify, b, log, sent) && Parse(auth, Verify, b).Advance?
    ensures var r := Parse(auth, Verify, b);
      r.used <= |b| && Checked(auth, r.next, b[r.used..], log + r.out, sent)
  {
    var r := Parse(auth, Verify, b);
    var methods :| Greets(methods, b, sent);
    assert Credentials(auth) + b[r.used..] == b;
    assert Greeting(methods) + Credentials(auth) + b[r.used..] == Greeting(methods) + b;
    assert Introduces(auth, methods, sent);
  }

  lemma {:induction false} DrainKeepsChecked(auth: Auth, phase: Phase, b: Bytes, log: seq<Event>, sent: Bytes)
    requires Stable(HandshakeStep(auth)) && auth.Wanted() && Checked(auth, phase, b, log, sent)
    requires phase.Handshaking() || phase.Connecting?
    ensures var k := Drain(HandshakeStep(auth), phase, b, log); Checked(auth, k.state, k.buffer, k.out, sent)
    decreases |b|
  {
    StableUsed(HandshakeStep(auth), phase, b);
    match Parse(auth, phase, b)
    case Wait =>
    case Halt(_, last) =>
      if last != [] {
        RepliesAskNothing(log, last);
      } else {
        assert log + last == log;
      }
    case Advance(n, next, out) =>
      match phase {
        case Init => InitKeepsChecked(auth, b, log);
        case Verify => VerifyKeepsChecked(auth, b, log, sent);
        case _ =>
      }
      DrainKeepsChecked(auth, next, b[n..], log + out, sent);
  }

  lemma MoreKeepsIntroduced(auth: Auth, sent: Bytes, more: Bytes)
    requires Introduced(auth, sent)
    ensures Introduced(auth, sent + more)
  {
    var methods :| Introduces(auth, methods, sent);
    assert Introduces(auth, methods, sent + more);
  }

  lemma MoreKeepsChecked(auth: Auth, c: Ctx, sent: Bytes, more: Bytes)
    requires Checked(auth, c.phase, c.buffer, c.log, sent)
    ensures c.phase.Handshaking() || c.phase.Connecting? ==>
      Checked(auth, c.phase, c.buffer + more, c.log, sent + more)
    ensures !c.phase.Handshaking() ==> Checked(auth, c.phase, c.buffer, c.log, sent + more)
  {
    if Introduced(auth, sent) {
      MoreKeepsIntroduced(auth, sent, more);
    }
    if c.phase.Verify? {
      var methods :| Greets(methods, c.buffer, sent);
      assert Greeting(methods) + (c.buffer + more) == sent + more;
      assert Greets(methods, c.buffer + more, sent + more);
    }
  }

  lemma PeerKeepsChecked(auth: Auth, c: Ctx, payload: Bytes, sent: Bytes)
    requires auth.Wanted() && Checked(auth, c.phase, c.buffer, c.log, sent)
    ensures var r := AfterPeerData(auth, c, payload);
      Checked(auth, r.phase, r.buffer, r.log, sent + payload)
  {
    MoreKeepsChecked(auth, c, sent, payload);
    if c.phase.Handshaking() && |c.buffer| + |payload| <= MAX_BUFFERED {
      HandshakeStepStable(auth);
      DrainKeepsChecked(auth, c.phase, c.buffer + payload, c.log, sent + payload);
    } else if AsksOutlet(c.log) {
      assert Introduced(auth, sent + payload);
    }
  }

  lemma ReplyKeepsChecked(auth: Auth, c: Ctx, success: bool, port: Option<nat>, sent: Bytes)
    requires Checked(auth, c.phase, c.buffer, c.log, sent)
    ensures var r := AfterConnectReply(c, success, port); Checked(auth, r.phase, r.buffer, r.log, sent)
  {
    if !c.phase.Failed? && !success {
      RepliesAskNothing(c.log, [Reply(CommandReply(4))]);
    }
  }

  /** With credentials configured, the outlet is asked for nothing before the peer has sent the right ones. */
  lemma {:induction false} OnlyTheIntroducedAsk(auth: Auth, inputs: seq<Input>)
    requires auth.Wanted()
    ensures var c := Run(auth, Ctx(Init, [], []), inputs);
      && Checked(auth, c.phase, c.buffer, c.log, PeerBytes(inputs))
      && (AsksOutlet(c.log) ==> Introduced(auth, PeerBytes(inputs)))
  {
    if inputs != [] {
      var before, last := inputs[..|inputs| - 1], inputs[|inputs| - 1];
      OnlyTheIntroducedAsk(auth, before);
      var c := Run(auth, Ctx(Init, [], []), before);
      assert inputs == before + [last];
      RunSplit(auth, Ctx(Init, [], []), before, [last]);
      assert Run(auth, c, [last]) == Take(auth, c, last);
      match last
      case FromPeer(payload) => PeerKeepsChecked(auth, c, payload, PeerBytes(before));
      case ConnectReply(success, port) =>
        ReplyKeepsChecked(auth, c, success, port, PeerBytes(before));
        assert PeerBytes(before) + [] == PeerBytes(before);
    }
  }

  class Socks5Context {
    const auth: Auth
    var status: Phase
    var buffer: Bytes
    var targetAddr: Option<Target>
    var connectIsTcp: bool
    var log: seq<Event>

    constructor (auth: Auth)
      ensures Valid() && View() == Ctx(Init, [], []) && this.auth == auth
    {
      this.auth := auth;
      status, buffer, targetAddr, connectIsTcp, log := Init, [], None, false, [];
    }

    ghost predicate Valid()
      reads this
    {
      && (status.Connecting? ==> targetAddr.Some? && status.isTcp == connectIsTcp)
      && (status.RunTcp? ==> buffer == [])
      && (status.RunUdp? ==> buffer == [])
    }

    /** The state that later calls depend on; bytes kept after the session is over are not part of it. */
    ghost function View(): Ctx
      reads this
    {
      Ctx(status, if status.Closing? || status.Failed? then [] else buffer, log)
    }

    method ReplyCommandError(code: byte)
      modifies this`status, this`log
      ensures status == Closing && log == old(log) + [Reply(CommandReply(code))]
    {
      log := log + [Reply(CommandReply(code))];
      status := Closing;
    }

    /** What one handler call leaves behind, in terms of one step of the handshake parser. */
    twostate predicate Stepped(ok: bool)
      reads this
    {
      && Valid()
      && match Parse(auth, old(status), old(buffer))
         case Wait => ok && View() == old(View())
         case Halt(end, last) =>
           status == end && log == old(log) + last && |buffer| <= |old(buffer)| && (ok <==> !end.Failed?)
         case Advance(n, next, out) =>
           ok && n <= |old(buffer)| && View() == Ctx(next, old(buffer)[n..], old(log) + out)
    }

    method OnInit() returns (ok: bool)
      requires Valid() && status == Init
      modifies this
      ensures Stepped(ok)
    {
      ok := true;
      if |buffer| < 3 {
        return;
      }
      if buffer[0] != 5 {
        log := log + [Reply([5, NO_METHOD])];
        status := Closing;
        return;
      }
      var methodCount: nat := buffer[1];
      if |buffer| < 2 + methodCount {
        return;
      }
      var methods := buffer[2..2 + methodCount];
      var wantAuth := auth.username != [] || auth.password != [];
      var chosen: byte := NO_METHOD;
      var i := 0;
      while i < |methods|
        invariant 0 <= i <= |methods|
        invariant chosen == NO_METHOD && ChooseMethod(auth, methods) == ChooseMethod(auth, methods[i..])
      {
        if !wantAuth && methods[i] == 0 {
          chosen := 0;
          break;
        }
        if wantAuth && methods[i] == 2 {
          chosen := 2;
          break;
        }
        i := i + 1;
      }
      assert chosen == ChooseMethod(auth, methods);
      log := log + [Reply([5, chosen])];
      buffer := buffer[2 + methodCount..];
      if chosen == NO_METHOD {
        status := Closing;
        return;
      }
      status := if chosen == 0 then Connect else Verify;
    }

    method OnVerify() returns (ok: bool)
      requires Valid() && status == Verify
      modifies this
      ensures Stepped(ok)
    {
      ok := true;
      if |buffer| < 5 {
        return;
      }
      if buffer[0] != 1 {
        log := log + [Reply([1, 1])];
        status := Closing;
        return;
      }
      var ulen: nat := buffer[1];
      if |buffer| < 2 + ulen + 1 {
        return;
      }
      var plenIdx := 2 + ulen;
      var plen: nat := buffer[plenIdx];
      if |buffer| < plenIdx + 1 + plen {
        return;
      }
      var username := buffer[2..2 + ulen];
      var password := buffer[plenIdx + 1..plenIdx + 1 + plen];
      buffer := buffer[plenIdx + 1 + plen..];
      if username == auth.username && password == auth.password {
        log := log + [Reply([1, 0])];
        status := Connect;
        return;
      }
      log := log + [Reply([1, 1])];
      status := Closing;
    }

    method OnConnect() returns (ok: bool)
      requires Valid() && status == Connect
      modifies this
      ensures Stepped(ok)
    {
      ok := true;
      if |buffer| < 4 {
        return;
      }
      var ver, cmd, rsv, kind := buffer[0], buffer[1], buffer[2], buffer[3];
      if ver != 5 || rsv != 0 {
        ReplyCommandError(7);
        return;
      }
      match ReadTargetAddr(buffer[4..], kind) {
        case BadKind =>
          status := Failed;
          ok := false;
        case Short =>
        case Addr(target, size) =>
          ReadTargetAddrStable(buffer[4..], kind, []);
          buffer := buffer[4 + size..];
          if cmd == 1 || cmd == 3 {
            targetAddr := Some(target);
            connectIsTcp := cmd == 1;
            status := Connecting(connectIsTcp);
            log := log + [ConnectTo(target, connectIsTcp)];
          } else {
            ReplyCommandError(7);
          }
      }
    }

    method ProcessBufferedHandshake() returns (ok: bool)
      requires Valid()
      modifies this
      ensures Valid() && (ok <==> !status.Failed? || old(status).Failed?)
      ensures Stable(HandshakeStep(auth))
      ensures View() == if old(status).Handshaking()
        then var k := Drain(HandshakeStep(auth), old(status), old(buffer), old(log)); Ctx(k.state, k.buffer, k.out)
        else old(View())
    {
      HandshakeStepStable(auth);
      ghost var p := HandshakeStep(auth);
      ghost var goal := Drain(p, status, buffer, log);
      ok := true;
      while true
        invariant Valid() && ok
        invariant old(status).Handshaking() ==>
          if status.Closing? then Ctx(goal.state, goal.buffer, goal.out) == View()
          else goal == Drain(p, status, buffer, log)
        invariant !old(status).Handshaking() ==> View() == old(View())
        invariant status.Failed? ==> old(status).Failed?
        decreases |buffer|, if status.Handshaking() then 1 else 0
      {
        var state, beforeLen := status, |buffer|;
        DrainOne(p, status, buffer, log);
        match state {
          case Init => ok := OnInit();
          case Verify => ok := OnVerify();
          case Connect => ok := OnConnect();
          case _ => return;
        }
        if !ok {
          return;
        }
        if status == state && |buffer| == beforeLen {
          return;
        }
      }
    }

    method SendTcpPayload(payload: Bytes)
      modifies this`log
      ensures log == AfterSend(old(log), payload)
    {
      if |payload| == 0 {
        return;
      }
      log := log + [Upstream(payload)];
    }

    method OnUdpAssociatePayload(payload: Bytes) returns (ok: bool)
      requires Valid() && status == RunUdp
      modifies this
      ensures Valid() && View() == AfterUdpPayload(old(View()), payload) && (ok <==> !status.Failed?)
    {
      ok := true;
      if |payload| < 11 || payload[0] != 0 || payload[1] != 0 || payload[2] != 0 {
        return;
      }
      match ReadTargetAddr(payload[4..], payload[3]) {
        case BadKind =>
          status := Failed;
          ok := false;
        case Short =>
        case Addr(target, size) =>
          ReadTargetAddrStable(payload[4..], payload[3], []);
          log := log + [UpstreamTo(target, payload[4 + size..])];
      }
    }

    /** A read from the peer's connection. */
    method OnPeerData(payload: Bytes) returns (ok: bool)
      requires Valid() && !status.Failed?
      modifies this
      ensures Valid() && (ok <==> !status.Failed?)
      ensures View() == AfterPeerData(auth, old(View()), payload)
    {
      ok := true;
      match status {
        case Init | Verify | Connect =>
          if |buffer| + |payload| > MAX_BUFFERED {
            status := Failed;
            return false;
          }
          buffer := buffer + payload;
          ok := ProcessBufferedHandshake();
        case Connecting(_) =>
          if |buffer| + |payload| > MAX_BUFFERED {
            status := Failed;
            return false;
          }
          buffer := buffer + payload;
        case RunTcp => SendTcpPayload(payload);
        case RunUdp => ok := OnUdpAssociatePayload(payload);
        case _ =>
      }
    }

    /** The outlet's answer to the connect request. */
    method OnConnectReply(success: bool, boundPort: Option<nat>)
      requires Valid() && !status.Failed?
      modifies this
      ensures Valid()
      ensures View() == AfterConnectReply(old(View()), success, boundPort)
    {
      if !success {
        ReplyCommandError(4);
        return;
      }
      if targetAddr.None? {
        return;
      }
      if !status.Connecting? {
        return;
      }
      if connectIsTcp {
        status := RunTcp;
        log := log + [Reply(CommandReply(0))];
        var pending := buffer;
        buffer := [];
        SendTcpPayload(pending);
        return;
      }
      buffer := [];
      match boundPort {
        case None => ReplyCommandError(4);
        case Some(port) =>
          status := RunUdp;
          log := log + [Reply([5, 0, 0, 1, 0, 0, 0, 0, port / 256 % 256, port % 256])];
      }
    }
  }
}
