/** SOCKS4: client and server joined by two channels, in any interleaving and with any cut of the data. Both
    forms of the client do the same. */
module HandshakeV4 {
  import opened Octets
  import opened Wire
  import opened RoundTrips
  import opened ClientV4
  import C = ClientRuns
  import H = Handshake
  import R = ServerReads
  import S = ServerRuns
  import T = Transport

  /** The client between two `read_some` or `write_some` operations: how much of the request is out, and the
      octets in both directions. */
  datatype Session = Session(pc: PcV4, r: seq<Octet>, w: seq<Octet>)

  datatype Link = Link(client: Session, server: S.Session)

  const INIT := Session(WriteRequestV4, [], [])

  function Init(): (sys: Link)
    ensures sys.server.c.Valid()
  {
    Link(INIT, S.Init())
  }

  /** What is being asked for. */
  datatype Wish = Wish(ep: Endpoint, user: seq<Octet>) {
    predicate Valid() { ep.V4? }
    function Octets(): seq<Octet> { RequestV4(ep, user) }
  }

  predicate ClientEnabled(wish: Wish, c: Session, h: C.Happening) {
    match h
    case Data(data, ec) =>
      && c.pc.ReadReplyV4? && |c.r| < 8 && |data| <= 8 - |c.r|
      && (data != [] || ec.Failed()) && (ec == Success || ec.Failed())
    case Out(k, ec) => c.pc.WriteRequestV4? && |c.w| + k <= |wish.Octets()| && (k > 0 || ec.Failed())
  }

  function ClientNext(wish: Wish, c: Session, h: C.Happening): Session
    requires ClientEnabled(wish, c, h)
  {
    match h
    case Data(data, ec) =>
      var c' := c.(r := c.r + data);
      if T.Stops(T.TransferAll, 8, ec, c'.r) then c'.(pc := AfterReadV4(ec, c'.r)) else c'
    case Out(k, ec) =>
      var c' := c.(w := c.w + wish.Octets()[|c.w|..|c.w| + k]);
      if ec.Failed() then c'.(pc := CompleteV4(ec, UNSPECIFIED))
      else if |c'.w| == |wish.Octets()| then c'.(pc := ReadReplyV4)
      else c'
  }

  /** Either end may do anything it is ready for; a read takes octets from its channel, in order. */
  predicate Enabled(wish: Wish, sys: Link, m: H.Move) {
    match m
    case ByClient(h) => ClientEnabled(wish, sys.client, h) && (h.Data? ==> sys.client.r + h.data <= sys.server.w)
    case ByServer(h) =>
      && S.Enabled(sys.server, h)
      && (h.Data? ==> sys.server.r + h.data <= sys.client.w)
      && (h.Relayed? && h.e.Up? && h.e.c.Read? && !h.e.c.ec.Failed() ==> sys.server.r + h.e.c.data <= sys.client.w)
  }

  function Next(wish: Wish, sys: Link, m: H.Move): Link
    requires sys.server.c.Valid() && Enabled(wish, sys, m)
  {
    match m
    case ByClient(h) => sys.(client := ClientNext(wish, sys.client, h))
    case ByServer(h) => sys.(server := S.Next(sys.server, h))
  }

  // ---------------------------------------------------------------- the client alone

  predicate ClientCanDo(wish: Wish, c: Session, hs: seq<C.Happening>)
    decreases |hs|
  {
    hs == [] || (ClientEnabled(wish, c, hs[0]) && ClientCanDo(wish, ClientNext(wish, c, hs[0]), hs[1..]))
  }

  function ClientDo(wish: Wish, c: Session, hs: seq<C.Happening>): Session
    requires ClientCanDo(wish, c, hs)
    decreases |hs|
  {
    if hs == [] then c else ClientDo(wish, ClientNext(wish, c, hs[0]), hs[1..])
  }

  lemma OneMore(wish: Wish, c: Session, h: C.Happening, hs: seq<C.Happening>)
    requires ClientEnabled(wish, c, h) && ClientCanDo(wish, ClientNext(wish, c, h), hs)
    ensures ClientCanDo(wish, c, [h] + hs) && ClientDo(wish, c, [h] + hs) == ClientDo(wish, ClientNext(wish, c, h), hs)
  {
    hide ClientNext, ClientEnabled;
    assert ([h] + hs)[1..] == hs;
  }

  lemma {:induction false} ReadIsDone(wish: Wish, c: Session, input: seq<T.Segment>) returns (hs: seq<C.Happening>)
    requires c.pc.ReadReplyV4? && |c.r| < 8
    ensures ClientCanDo(wish, c, hs)
    ensures var r := T.ComposedRead(T.TransferAll, 8, c.r, Success, input);
            ClientDo(wish, c, hs) == Session(AfterReadV4(r.ec, r.data), r.data, c.w)
    decreases 8 - |c.r|
  {
    hide T.ComposedRead, T.ReadSome, AfterReadV4;
    T.ComposedRound(T.TransferAll, 8, c.r, Success, input);
    var some := T.ReadSome(input, 8 - |c.r|);
    var h := C.Data(some.data, some.ec);
    T.ComposedRound(T.TransferAll, 8, c.r + some.data, some.ec, some.rest);
    hs := [];
    if !T.Stops(T.TransferAll, 8, some.ec, c.r + some.data) {
      hs := ReadIsDone(wish, ClientNext(wish, c, h), some.rest);
    }
    OneMore(wish, c, h, hs);
    hs := [h] + hs;
  }

  /** The client's course as a whole is such a run, with the same result, octets written and octets consumed. */
  lemma RunV4IsDone(wish: Wish, io: T.Io) returns (hs: seq<C.Happening>)
    requires wish.Valid()
    ensures ClientCanDo(wish, INIT, hs)
    ensures var out, end := RunV4(wish.ep, wish.user, io), ClientDo(wish, INIT, hs);
            && end.pc == CompleteV4(out.ec, out.ep) && out.io.wire == io.wire + end.w
            && T.Flatten(io.input) == end.r + T.Flatten(out.io.input)
  {
    hide T.ComposedRead, T.Flatten, RequestV4, AfterReadV4;
    var m := wish.Octets();
    var sent := T.Hand(io, m);
    if sent.ec.Failed() {
      var h := C.Out(Min(io.faults[0].sent, |m|), sent.ec);
      OneMore(wish, INIT, h, []);
      hs := [h];
    } else {
      var h := C.Out(|m|, Success);
      RequestStarts(wish);
      hs := ReadIsDone(wish, ClientNext(wish, INIT, h), sent.io.input);
      OneMore(wish, INIT, h, hs);
      hs := [h] + hs;
    }
  }

  lemma RequestStarts(wish: Wish)
    ensures |wish.Octets()| > 0 && wish.Octets()[0] == 4
  {
  }

  // ---------------------------------------------------------------- the invariant

  predicate ClientInv(wish: Wish, c: Session) {
    && c.w <= wish.Octets() && |c.r| <= 8
    && match c.pc
       case WriteRequestV4 => c.r == []
       case ReadReplyV4 => c.w == wish.Octets()
       case CompleteV4(ec, ep) =>
         if ec.Failed() then ep == UNSPECIFIED
         else c.w == wish.Octets() && |c.r| == 8 && c.pc == AfterReadV4(Success, c.r)
  }

  predicate Inv(wish: Wish, sys: Link) {
    && ClientInv(wish, sys.client) && S.Inv(sys.server)
    && sys.client.r <= sys.server.w && sys.server.r <= sys.client.w
  }

  lemma InitInv(wish: Wish)
    ensures Inv(wish, Init())
  {
    S.InitInv();
  }

  lemma ClientKeepsInv(wish: Wish, c: Session, h: C.Happening)
    requires ClientInv(wish, c) && ClientEnabled(wish, c, h)
    ensures var c' := ClientNext(wish, c, h);
            ClientInv(wish, c') && c.w <= c'.w && c'.r == if h.Data? then c.r + h.data else c.r
  {
    hide Wish.Octets;
    if h.Out? {
      var all := wish.Octets();
      assert c.w == all[..|c.w|];
      assert c.w + all[|c.w|..|c.w| + h.k] == all[..|c.w| + h.k];
      assert all[..|all|] == all;
    }
  }

  lemma StepKeepsInv(wish: Wish, sys: Link, m: H.Move)
    requires Inv(wish, sys) && Enabled(wish, sys, m)
    ensures Inv(wish, Next(wish, sys, m))
  {
    hide S.Story, S.AtPc, S.Next, Joined, ClientNext, ClientInv, T.Stops, T.Limit;
    match m {
      case ByClient(h) => ClientKeepsInv(wish, sys.client, h);
      case ByServer(h) =>
        S.StepKeepsInv(sys.server, h);
        H.ServerGrows(sys.server, h);
    }
  }

  // ---------------------------------------------------------------- runs

  lemma NextFits(wish: Wish, sys: Link, m: H.Move)
    requires sys.server.c.Valid() && Enabled(wish, sys, m)
    ensures Next(wish, sys, m).server.c.Valid()
  {
    hide S.Next;
    if m.ByServer? { S.NextValid(sys.server, m.s); }
  }

  predicate CanDo(wish: Wish, sys: Link, ms: seq<H.Move>)
    requires sys.server.c.Valid()
    decreases |ms|
  {
    ms == [] ||
    (Enabled(wish, sys, ms[0]) && (NextFits(wish, sys, ms[0]); CanDo(wish, Next(wish, sys, ms[0]), ms[1..])))
  }

  function Do(wish: Wish, sys: Link, ms: seq<H.Move>): Link
    requires sys.server.c.Valid() && CanDo(wish, sys, ms)
    decreases |ms|
  {
    if ms == [] then sys else NextFits(wish, sys, ms[0]); Do(wish, Next(wish, sys, ms[0]), ms[1..])
  }

  lemma {:induction false} RunKeepsInv(wish: Wish, sys: Link, ms: seq<H.Move>)
    requires Inv(wish, sys) && CanDo(wish, sys, ms)
    ensures Inv(wish, Do(wish, sys, ms))
    decreases |ms|
  {
    hide Next, Enabled;
    if ms != [] {
      StepKeepsInv(wish, sys, ms[0]);
      RunKeepsInv(wish, Next(wish, sys, ms[0]), ms[1..]);
    }
  }

  // ---------------------------------------------------------------- agreement

  /** What the client as written makes of the server's local endpoint: the port, and the address octets one
      place late behind the port's low octet. An IPv6 endpoint is told with a zero address. */
  function Garbled(local: Endpoint): Endpoint {
    V4([local.port % 256] + (if local.V4? then local.addr[..3] else [0, 0, 0]), local.port)
  }

  /** What a successful client can rely on about the server. */
  predicate Agreement(wish: Wish, sys: Link) {
    && sys.client.pc == CompleteV4(Socks(90), Garbled(sys.server.local))
    // The server dialled exactly the endpoint asked for, and has connected.
    && sys.server.connected && sys.server.c.target == wish.ep
    // What the client has not read yet is what the server has relayed since, from its first octet.
    && sys.server.w == sys.client.r + sys.server.relay.down.written
  }

  /** The client reads the server's granting reply so. */
  lemma ReplyGarbled(rep: Octet, local: Endpoint)
    ensures !DecodeReplyV4(ReplyV4(rep, local)).ec.Failed() <==> rep == 90
    ensures rep == 90 ==> DecodeReplyV4(ReplyV4(rep, local)) == Decoded(Socks(90), Garbled(local))
  {
    var r := ReplyV4(rep, local);
    if rep == 90 {
      assert r[2..4] == PortOctets(local.port);
      assert r[2] == r[2..4][0] && r[3] == r[2..4][1];
      assert r[3..7] == [local.port % 256] + r[4..7];
    }
  }

  /** A server that has written eight octets or more to a SOCKS4 client has begun its reply, and nothing else. */
  lemma RepliesInKind(wish: Wish, sys: Link)
    requires Inv(wish, sys) && |sys.server.w| >= 8
    ensures var s, b := sys.server, S.Begun(sys.server);
            && |b| == 1 && 0 < |s.log| && s.log[0] <= sys.client.w && S.HonestV4(s, s.log[0], b[0])
            && (s.w == b[0] + s.relay.down.written || (s.w <= b[0] && s.relay.down.written == []))
  {
    hide ParseGreeting, ParseConnect, ParseConnectV4, Reply, ReplyV4, T.Limit, T.Stops, Joined, ClientInv;
    var s := sys.server;
    var b := S.Begun(s);
    H.ServerWritten(s);
    H.JoinedNone();
    assert b != [];
    H.LogRead(s);
    AskedInKind(wish, sys.client, s.log[0]);
    H.JoinedShort(b);
  }

  /** No piece of a SOCKS4 request is a SOCKS5 greeting. */
  lemma AskedInKind(wish: Wish, c: Session, q: seq<Octet>)
    requires ClientInv(wish, c) && q <= c.w
    ensures ParseGreeting(q).None?
  {
    RequestStarts(wish);
    assert q != [] ==> q[0] == wish.Octets()[0];
  }

  lemma SuccessMeansAgreement(wish: Wish, sys: Link)
    requires wish.Valid() && Inv(wish, sys) && sys.client.pc.CompleteV4? && !sys.client.pc.ec.Failed()
    ensures Agreement(wish, sys)
  {
    hide S.Inv, ParseConnectV4, ReplyV4, DecodeReplyV4, RequestV4;
    RepliesInKind(wish, sys);
    var s := sys.server;
    var reply := S.Begun(s)[0];
    assert sys.client.r == s.w[..8] == reply;
    ReplyGarbled(reply[1], s.local);
    assert ParseConnectV4(s.log[0]).Some?;
    Understood(s.log[0]);
    R.V4PrefixParsed(wish.ep, wish.user, s.log[0]);
  }

  lemma Understood(q: seq<Octet>)
    requires |q| > 0 && ParseConnectV4(q).Some?
    ensures |q| >= 8
  {
  }

  /** End-to-end agreement of SOCKS4: in every interleaving of client and server, with every cut of the data and
      errors anywhere, a client that finishes with success agrees with the server; the endpoint it returns is
      the server's exactly if that is one of IPv4 whose address octets all equal the port's low octet. */
  lemma EndToEndAgreementV4(wish: Wish, ms: seq<H.Move>)
    requires wish.Valid() && CanDo(wish, Init(), ms)
    ensures var sys := Do(wish, Init(), ms);
            sys.client.pc.CompleteV4? && !sys.client.pc.ec.Failed() ==>
              && Agreement(wish, sys)
              && (sys.client.pc.ep == sys.server.local <==>
                    sys.server.local.V4? && forall a <- sys.server.local.addr :: a == sys.server.local.port % 256)
  {
    hide Agreement, Inv;
    InitInv(wish);
    RunKeepsInv(wish, Init(), ms);
    var sys := Do(wish, Init(), ms);
    if sys.client.pc.CompleteV4? && !sys.client.pc.ec.Failed() {
      SuccessMeansAgreement(wish, sys);
      GarbledSame(sys.server.local);
      Means(wish, sys);
    }
  }

  lemma Means(wish: Wish, sys: Link)
    requires Agreement(wish, sys)
    ensures sys.client.pc == CompleteV4(Socks(90), Garbled(sys.server.local))
  {
  }

  lemma GarbledSame(local: Endpoint)
    ensures Garbled(local) == local <==> local.V4? && forall a <- local.addr :: a == local.port % 256
  {
    if local.V4? {
      assert ([local.port % 256] + local.addr)[..4] == [local.port % 256] + local.addr[..3];
      ShiftedIsConstant(local.addr, local.port % 256);
    }
  }
}
