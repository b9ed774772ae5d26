/** Client and server joined by two channels, in any interleaving and with any cut of the data. */
module Handshake {
  import opened Octets
  import opened Wire
  import opened RoundTrips
  import opened Client
  import opened ClientTheorems
  import C = ClientRuns
  import S = ServerRuns
  import T = Transport
  import V = Server

  /** Both ends. What one end has written and the other has not read is in the channel between them. */
  datatype Link = Link(client: C.Session, server: S.Session)

  function Init(cfg: Config): (sys: Link)
    requires cfg.Valid()
    ensures sys.client.pc.Fits(cfg) && sys.server.c.Valid()
  {
    Link(C.Init(cfg), S.Init())
  }

  datatype Move = ByClient(c: C.Happening) | ByServer(s: S.Happening)

  /** Either end may do anything it is ready for; a read takes octets from its channel, in order. */
  predicate Enabled(sys: Link, m: Move) {
    match m
    case ByClient(h) =>
      C.Enabled(sys.client, h) && (h.Data? ==> sys.client.r + h.data <= sys.server.w)
    case ByServer(h) =>
      && S.Enabled(sys.server, h)
      && (h.Data? ==> sys.server.r + h.data <= sys.client.w)
      && (h.Relayed? && h.e.Up? && h.e.c.Read? && !h.e.c.ec.Failed() ==> sys.server.r + h.e.c.data <= sys.client.w)
  }

  function Next(form: Form, cfg: Config, sys: Link, m: Move): Link
    requires sys.client.pc.Fits(cfg) && sys.server.c.Valid() && Enabled(sys, m)
  {
    match m
    case ByClient(h) => sys.(client := C.Next(form, cfg, sys.client, h))
    case ByServer(h) => sys.(server := S.Next(sys.server, h))
  }

  // ---------------------------------------------------------------- the invariant

  predicate Channels(sys: Link) {
    sys.client.r <= sys.server.w && sys.server.r <= sys.client.w
  }

  /** A user/pass request shorter than 513 octets is never answered. */
  predicate Stalls(cfg: Config, sys: Link)
    requires cfg.Valid()
  {
    cfg.opt.Userpass? && |UserpassRequest(cfg.opt)| < 513 ==> |sys.server.w| <= 2
  }

  predicate Inv(cfg: Config, sys: Link) {
    C.Inv(cfg, sys.client) && S.Inv(sys.server) && Channels(sys) && Stalls(cfg, sys)
  }

  lemma InitInv(cfg: Config)
    requires cfg.Valid()
    ensures Inv(cfg, Init(cfg))
  {
  }

  lemma StepKeepsChannels(form: Form, cfg: Config, sys: Link, m: Move)
    requires sys.client.pc.Fits(cfg) && sys.server.c.Valid() && Channels(sys) && Enabled(sys, m)
    ensures Channels(Next(form, cfg, sys, m))
    ensures sys.client.w <= Next(form, cfg, sys, m).client.w && sys.server.w <= Next(form, cfg, sys, m).server.w
  {
    match m {
      case ByClient(h) => ClientGrows(form, cfg, sys.client, h);
      case ByServer(h) => ServerGrows(sys.server, h);
    }
  }

  lemma ClientGrows(form: Form, cfg: Config, s: C.Session, h: C.Happening)
    requires s.pc.Fits(cfg) && C.Enabled(s, h)
    ensures var s' := C.Next(form, cfg, s, h);
            s.w <= s'.w && s'.r == if h.Data? then s.r + h.data else s.r
  {
  }

  lemma ServerGrows(s: S.Session, h: S.Happening)
    requires s.c.Valid() && S.Enabled(s, h)
    ensures var s' := S.Next(s, h);
            && s.w <= s'.w
            && s'.r == if h.Data? then s.r + h.data
                       else if h.Relayed? && h.e.Up? && h.e.c.Read? && !h.e.c.ec.Failed() then s.r + h.e.c.data
                       else s.r
  {
    hide T.Limit, T.Stops, V.AfterRead, V.AfterWrite;
  }

  // ---------------------------------------------------------------- what each end's octets tell

  /** Whatever the client has written starts with its greeting, as far as it goes. */
  lemma ClientStart(cfg: Config, s: C.Session)
    requires C.Inv(cfg, s)
    ensures s.w <= Greeting(cfg.opt) || Greeting(cfg.opt) <= s.w
  {
    hide Greeting, UserpassRequest, Request, Joined, C.AtPc, C.PreambleOf;
    C.BegunWritten(cfg, s);
    var b := C.Begun(s);
    JoinedNone();
    if |b| > 0 {
      JoinedStart(b);
      assert b[0] == Greeting(cfg.opt);
    }
  }

  lemma {:induction false} JoinedStart(msgs: seq<seq<Octet>>)
    requires msgs != []
    ensures msgs[0] <= Joined(msgs)
  {
    if |msgs| > 1 { JoinedStart(msgs[..|msgs| - 1]); }
    else { assert Joined(msgs) == Joined([]) + msgs[0]; }
  }

  /** Before the server has answered the credentials, the client has written at most greeting and
      credentials. */
  lemma ClientWaits(cfg: Config, s: C.Session)
    requires C.Inv(cfg, s) && cfg.opt.Userpass? && |s.r| <= 2 && s.r != [5, 0]
    ensures |s.w| <= 4 + |UserpassRequest(cfg.opt)|
  {
    hide Greeting, UserpassRequest, Request;
    C.BegunWritten(cfg, s);
    JoinedFew(Greeting(cfg.opt), UserpassRequest(cfg.opt), []);
    assert C.PreambleOf(s.r) == s.r;
  }

  /** A server that has read the client's greeting has read all of it, and has chosen what it offers. */
  lemma GreetingHeard(cfg: Config, sys: Link)
    requires C.Inv(cfg, sys.client) && S.Inv(sys.server) && Channels(sys)
    requires |sys.server.log| > 0 && ParseGreeting(sys.server.log[0]) == Some(sys.server.c.choice)
    ensures sys.server.log[0] == Greeting(cfg.opt) && sys.server.c.choice == cfg.opt.Code()
  {
    hide Joined, C.Inv, S.Story, S.AtPc, T.Stops, T.Limit;
    var g, w := sys.server.log[0], sys.client.w;
    JoinedStart(sys.server.log);
    assert g <= w;
    ClientStart(cfg, sys.client);
    assert g[0] == w[0] && g[1] == w[1];
    assert Greeting(cfg.opt)[1] == w[1];
    assert |g| == |Greeting(cfg.opt)|;
    assert g == w[..|g|] == Greeting(cfg.opt);
    NegotiationAgreement(cfg.opt, 0);
  }

  /** A server that has written more than a choice has chosen a method and begun what comes after. */
  lemma ServerBegan(s: S.Session)
    requires S.Inv(s) && |s.w| > 2 && s.w[0] == 5
    ensures 0 < |s.log| && ParseGreeting(s.log[0]) == Some(s.c.choice)
    ensures s.c.choice == 0 || s.c.choice == 2
    ensures 1 < |S.Begun(s)| <= |s.log| && |S.Begun(s)[0]| != 8 && S.StoryV5(s, S.Begun(s))
  {
    hide ParseGreeting, ParseConnect, ParseConnectV4, Reply, T.Limit, T.Stops, Joined;
    var b := S.Begun(s);
    ServerWritten(s);
    JoinedNone();
    assert b != [];
    JoinedStart(b);
    assert s.w[0] == b[0][0];
    assert |b[0]| != 8;
    ChoiceRange(s.log[0]);
    JoinedShort(b);
  }

  /** Either it is still within the exchange for that method, or a CONNECT reply follows. */
  lemma ServerSpeaks(s: S.Session) returns (pre: seq<Octet>)
    requires S.Inv(s) && |s.w| > 2 && s.w[0] == 5
    ensures 0 < |s.log| && ParseGreeting(s.log[0]) == Some(s.c.choice) && s.w[1] == s.c.choice
    ensures s.c.choice == 0 || s.c.choice == 2
    ensures pre == if s.c.choice == 0 then [5, 0] else [5, 2, 1, 0]
    ensures s.c.choice == 2 ==> |s.log| > 1 && |s.log[1]| == 513
    ensures s.w <= pre ||
            (var n := S.AuthSize(s.c.choice);
             && |s.log| == n + 1 && |S.Begun(s)| == n + 1 && S.Honest(s, s.log[n], S.Begun(s)[n])
             && ((s.relay.down.written == [] && s.w <= pre + S.Begun(s)[n])
                 || s.w == pre + S.Begun(s)[n] + s.relay.down.written))
  {
    hide ParseGreeting, ParseConnect, ParseConnectV4, Reply, T.Limit, T.Stops, Joined, S.Inv, S.Story, S.Honest;
    var b := S.Begun(s);
    pre := if s.c.choice == 0 then [5, 0] else [5, 2, 1, 0];
    ServerBegan(s);
    ServerWritten(s);
    JoinedShort(b);
    RelayingEnds(s);
    assert s.w[1] == (b[0] + b[1])[1];
  }

  /** While it relays, the server has begun its reply. */
  lemma RelayingEnds(s: S.Session)
    requires S.Inv(s)
    ensures s.c.pc.Relaying? && s.out != [] && |s.out[0]| != 8 ==> |S.Begun(s)| == S.AuthSize(s.c.choice) + 1
    ensures S.Begun(s) != [] && s.c.pc.Relaying? ==> s.out != [] && s.out[0] == S.Begun(s)[0]
  {
    hide ParseGreeting, ParseConnect, ParseConnectV4, Reply, T.Limit, T.Stops, Joined, S.Story;
  }

  lemma JoinedNone()
    ensures Joined([]) == []
  {
  }

  lemma JoinedShort(b: seq<seq<Octet>>)
    ensures |b| == 1 ==> Joined(b) == b[0]
    ensures |b| == 2 ==> Joined(b) == b[0] + b[1]
    ensures |b| == 3 ==> Joined(b) == b[0] + b[1] + b[2]
  {
  }

  lemma ChoiceRange(g: seq<Octet>)
    ensures match ParseGreeting(g) case Some(c) => c == 0 || c == 2 || c == 0xFF case None => true
  {
  }

  /** The server's octets: a piece of the messages begun, or all of them and what was relayed. */
  lemma ServerWritten(s: S.Session)
    requires S.Inv(s)
    ensures (s.relay.down.written == [] && s.w <= Joined(S.Begun(s)))
            || (s.c.pc.Relaying? && s.w == Joined(S.Begun(s)) + s.relay.down.written)
  {
    hide Joined, S.Story, S.AtPc, T.Limit, T.Stops;
    if s.pending != [] {
      JoinedMore(s.out, s.pending);
      assert s.w == (Joined(s.out) + s.pending)[..|s.w|];
    } else {
      assert s.w == Joined(s.out) + s.relay.down.written;
    }
  }

  /** The messages read are what the server has read first. */
  lemma LogRead(s: S.Session)
    requires S.Inv(s)
    ensures Joined(s.log) <= s.r
    ensures |s.log| > 0 ==> s.log[0] <= s.r
    ensures |s.log| == 2 ==> s.log[0] + s.log[1] <= s.r
    ensures |s.log| == 3 ==> s.log[0] + s.log[1] + s.log[2] <= s.r
  {
    hide Joined, S.Story, S.AtPc, T.Limit, T.Stops;
    JoinedShort(s.log);
    if s.log != [] { JoinedStart(s.log); }
  }

  /** To a SOCKS5 greeting the server never answers in SOCKS4. */
  lemma AnswersInKind(cfg: Config, sys: Link)
    requires C.Inv(cfg, sys.client) && S.Inv(sys.server) && Channels(sys) && sys.server.w != []
    ensures sys.server.w[0] == 5
  {
    hide ParseGreeting, ParseConnect, ParseConnectV4, Reply, T.Limit, T.Stops, Joined;
    var b := S.Begun(sys.server);
    ServerWritten(sys.server);
    JoinedNone();
    assert b != [];
    JoinedStart(b);
    LogRead(sys.server);
    ClientStart(cfg, sys.client);
    assert sys.server.w[0] == b[0][0];
    assert sys.server.log[0] != [] ==> sys.server.log[0][0] == sys.client.w[0] == 5;
  }

  // ---------------------------------------------------------------- the invariant is kept

  /** The server gets past the user/pass read only with 513 octets, which a shorter request cannot supply
      before it is answered. */
  lemma StillStalls(form: Form, cfg: Config, sys: Link, m: Move)
    requires Inv(cfg, sys) && Enabled(sys, m)
    requires var sys' := Next(form, cfg, sys, m);
             C.Inv(cfg, sys'.client) && S.Inv(sys'.server) && Channels(sys') && sys.server.w <= sys'.server.w
    ensures Stalls(cfg, Next(form, cfg, sys, m))
  {
    hide UserpassRequest, Greeting, Joined, T.Limit, T.Stops, S.Story, S.AtPc, C.AtPc, C.Gated;
    var sys' := Next(form, cfg, sys, m);
    if cfg.opt.Userpass? && |UserpassRequest(cfg.opt)| < 513 && |sys'.server.w| > 2 {
      if m.ByServer? {
        AnswersInKind(cfg, sys');
        var pre := ServerSpeaks(sys'.server);
        GreetingHeard(cfg, sys');
        LogRead(sys'.server);
        assert |sys'.server.r| >= 4 + 513 by { JoinedPair(sys'.server.log); }
        assert sys'.server.w[1] == 2;
        ClientWaits(cfg, sys'.client);
      }
    }
  }

  lemma {:induction false} JoinedPair(msgs: seq<seq<Octet>>)
    requires |msgs| >= 2
    ensures |Joined(msgs)| >= |msgs[0]| + |msgs[1]|
  {
    if |msgs| == 2 { JoinedShort(msgs); } else { JoinedPair(msgs[..|msgs| - 1]); }
  }

  lemma StepKeepsInv(form: Form, cfg: Config, sys: Link, m: Move)
    requires Inv(cfg, sys) && Enabled(sys, m)
    ensures Inv(cfg, Next(form, cfg, sys, m))
  {
    hide S.Story, S.AtPc, C.AtPc, C.Gated, Joined, Stalls, Channels, C.Next, S.Next, T.Stops, T.Limit;
    StepKeepsChannels(form, cfg, sys, m);
    match m {
      case ByClient(Data(data, ec)) => C.DataKeepsInv(form, cfg, sys.client, data, ec);
      case ByClient(Out(k, ec)) => C.OutKeepsInv(form, cfg, sys.client, k, ec);
      case ByServer(h) => S.StepKeepsInv(sys.server, h);
    }
    StillStalls(form, cfg, sys, m);
  }

  // ---------------------------------------------------------------- runs

  lemma NextFits(form: Form, cfg: Config, sys: Link, m: Move)
    requires sys.client.pc.Fits(cfg) && sys.server.c.Valid() && Enabled(sys, m)
    ensures Next(form, cfg, sys, m).client.pc.Fits(cfg) && Next(form, cfg, sys, m).server.c.Valid()
  {
    hide C.Next, S.Next;
    if m.ByServer? { S.NextValid(sys.server, m.s); }
  }

  predicate CanDo(form: Form, cfg: Config, sys: Link, ms: seq<Move>)
    requires sys.client.pc.Fits(cfg) && sys.server.c.Valid()
    decreases |ms|
  {
    ms == [] || (Enabled(sys, ms[0]) && (NextFits(form, cfg, sys, ms[0]);
                 CanDo(form, cfg, Next(form, cfg, sys, ms[0]), ms[1..])))
  }

  function Do(form: Form, cfg: Config, sys: Link, ms: seq<Move>): Link
    requires sys.client.pc.Fits(cfg) && sys.server.c.Valid() && CanDo(form, cfg, sys, ms)
    decreases |ms|
  {
    if ms == [] then sys
    else NextFits(form, cfg, sys, ms[0]); Do(form, cfg, Next(form, cfg, sys, ms[0]), ms[1..])
  }

  lemma {:induction false} RunKeepsInv(form: Form, cfg: Config, sys: Link, ms: seq<Move>)
    requires Inv(cfg, sys) && CanDo(form, cfg, sys, ms)
    ensures Inv(cfg, Do(form, cfg, sys, ms))
    decreases |ms|
  {
    hide Next, Enabled;
    if ms != [] {
      StepKeepsInv(form, cfg, sys, ms[0]);
      RunKeepsInv(form, cfg, Next(form, cfg, sys, ms[0]), ms[1..]);
    }
  }

  // ---------------------------------------------------------------- agreement

  /** What a successful client can rely on about the server. */
  predicate Agreement(cfg: Config, sys: Link) {
    && sys.client.pc.Complete?
    // The server has connected, and tells the client the local endpoint of that connection.
    && sys.server.connected && sys.client.pc.ep == sys.server.local
    // It dialled what the request says, or the resolver's answer for exactly the domain it says.
    && (match Heard(cfg.target)
        case Dial(ep) => sys.server.c.target == ep
        case Resolve(_, _) => sys.server.answer == Some(sys.server.c.target)
        case Refuse(_) => false)
    && 0 < |sys.server.log| && 4 < |sys.server.log[|sys.server.log| - 1]|
    && ParseConnect(sys.server.log[|sys.server.log| - 1]) == Heard(cfg.target)
    // What the client has not read yet is what the server has relayed since, from its first octet.
    && sys.server.w == sys.client.r + sys.server.relay.down.written
    // User/pass comes to success only with the longest of all requests.
    && (cfg.opt.Userpass? ==> |cfg.opt.user| == |cfg.opt.pass| == 255)
  }

  /** A reply the client took as success out of the server's octets is the reply the server sent. */
  lemma ReplyIsServers(pre: seq<Octet>, reply: seq<Octet>, rep: Octet, bnd: Endpoint, down: seq<Octet>, w: seq<Octet>)
    requires Granted(reply) && pre + reply <= w
    requires w <= pre + Reply(rep, bnd) || w == pre + Reply(rep, bnd) + down
    ensures reply == Reply(rep, bnd) && rep == 0 && GrantedEndpoint(reply) == bnd
    ensures w <= pre + Reply(rep, bnd) ==> w == pre + Reply(rep, bnd)
  {
    hide Reply, GrantedEndpoint;
    var told := Reply(rep, bnd);
    var n := |pre|;
    ReplyRoundTrip(rep, bnd);
    S.AnyBound(rep, bnd);
    assert |w| >= n + 10 && w[n + 1] == reply[1] == told[1] && w[n + 3] == reply[3] == told[3];
    assert reply == w[n..n + |reply|] == told;
    DecodeReplyGrants(reply);
  }

  /** The client's octets after success. */
  lemma ClientSucceeded(cfg: Config, s: C.Session)
    requires C.Inv(cfg, s) && s.pc.Complete? && !s.pc.ec.Failed()
    ensures var pre := C.PreambleOf(s.r);
            && Preamble(cfg.opt, pre) && s.r == pre + s.r[|pre|..] && Granted(s.r[|pre|..])
            && s.pc.ep == GrantedEndpoint(s.r[|pre|..])
            && s.w == Greeting(cfg.opt)
                      + (if pre == [5, 0] then [] else UserpassRequest(cfg.opt)) + Request(cfg.target)
  {
    hide Greeting, UserpassRequest, Request, Granted, Joined;
    JoinedShort(s.out);
    assert s.w == Joined(s.out) + [];
    var pre := C.PreambleOf(s.r);
    assert pre == [5, 0] ==> s.w == Greeting(cfg.opt) + [] + Request(cfg.target);
  }

  /** The request the server has read, once it has read greeting, credentials and request from the client. */
  lemma RequestArrived(cfg: Config, g: seq<Octet>, u: seq<Octet>, q: seq<Octet>, creds: seq<Octet>)
    requires cfg.Valid() && g == Greeting(cfg.opt) && |u| == |creds|
    requires g + u + q <= Greeting(cfg.opt) + creds + Request(cfg.target)
    requires 4 < |q| && !ParseConnect(q).Refuse?
    ensures ParseConnect(q) == Heard(cfg.target)
  {
    hide Greeting, Request, ParseConnect;
    var w := Greeting(cfg.opt) + creds + Request(cfg.target);
    assert w[|g + u|..] == Request(cfg.target);
    assert q == w[|g + u|..][..|q|];
    RequestHeard(cfg.target, q);
  }

  lemma SuccessMeansAgreement(cfg: Config, sys: Link)
    requires Inv(cfg, sys) && sys.client.pc.Complete? && !sys.client.pc.ec.Failed()
    ensures Agreement(cfg, sys)
  {
    hide Greeting, UserpassRequest, Request, Granted, Joined, ParseConnect, ParseConnectV4, Reply, Heard,
         T.Stops, T.Limit,
         GrantedEndpoint, S.Story, S.AtPc, C.AtPc, C.Gated, ParseGreeting;
    var s := sys.server;
    ClientSucceeded(cfg, sys.client);
    var cpre := C.PreambleOf(sys.client.r);
    var reply := sys.client.r[|cpre|..];
    AnswersInKind(cfg, sys);
    GrantedSize(reply);
    var pre := ServerSpeaks(s);
    GreetingHeard(cfg, sys);
    assert sys.client.r[1] == s.w[1];
    assert cpre == pre;
    var n := S.AuthSize(s.c.choice);
    var told := S.Begun(s)[n];
    ReplyIsServers(pre, reply, told[1], s.local, s.relay.down.written, s.w);
    LogRead(s);
    if n == 1 {
      assert s.log[0] + [] + s.log[1] == s.log[0] + s.log[1];
      RequestArrived(cfg, s.log[0], [], s.log[1], []);
    } else {
      RequestArrived(cfg, s.log[0], s.log[1], s.log[2], UserpassRequest(cfg.opt));
    }
  }

  lemma GrantedSize(reply: seq<Octet>)
    requires Granted(reply)
    ensures |reply| >= 10
  {
  }

  /** End-to-end agreement: in every interleaving of client and server, with every cut of the data and errors
      anywhere, a client of either form that finishes with success agrees with the server. */
  lemma EndToEndAgreement(form: Form, cfg: Config, ms: seq<Move>)
    requires cfg.Valid() && CanDo(form, cfg, Init(cfg), ms)
    ensures var sys := Do(form, cfg, Init(cfg), ms);
            sys.client.pc.Complete? && !sys.client.pc.ec.Failed() ==> Agreement(cfg, sys)
    ensures Expressible(cfg.target) <==> Heard(cfg.target) == Wanted(cfg.target)
  {
    hide Agreement, Inv;
    InitInv(cfg);
    RunKeepsInv(form, cfg, Init(cfg), ms);
    var sys := Do(form, cfg, Init(cfg), ms);
    if sys.client.pc.Complete? && !sys.client.pc.ec.Failed() { SuccessMeansAgreement(cfg, sys); }
    if !Expressible(cfg.target) { assert |cfg.target.name[..|cfg.target.name| % 256]| != |cfg.target.name|; }
  }
}
