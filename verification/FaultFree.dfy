/** The handshake when no I/O fails: whether it comes to an end, and to which. The server may be relaying
    before the client is done. */
module FaultFree {
  import opened Octets
  import opened Wire
  import opened RoundTrips
  import opened Client
  import opened ClientTheorems
  import opened Handshake
  import C = ClientRuns
  import S = ServerRuns
  import T = Transport
  import V = Server
  import Y = Relay

  /** No error is delivered; the resolver and the target may still say no. */
  predicate Clean(m: Move) {
    match m
    case ByClient(Data(_, ec)) => ec == Success
    case ByClient(Out(_, ec)) => ec == Success
    case ByServer(Data(_, ec)) => ec == Success
    case ByServer(Out(_, ec)) => ec == Success
    case ByServer(Relayed(e)) => e.c.ec == Success
    case ByServer(_) => true
  }

  predicate AllClean(ms: seq<Move>) { forall m <- ms :: Clean(m) }

  /** A move of the relay loops, which go on as long as the target sends. */
  predicate Relays(m: Move) { m.ByServer? && m.s.Relayed? }

  // ---------------------------------------------------------------- every handshake ends

  function Stage(pc: V.Pc): nat {
    if pc.Dialling? then 1 else if pc.WritingReply? || pc.Relaying? || pc.Closed? then 2 else 0
  }

  /** The server knows what becomes of the request. */
  predicate Past(s: S.Session) { Stage(s.c.pc) == 2 }

  /** Octets moved by other than the relay loops, and the server's progress with the target. */
  function Progress(sys: Link): int {
    |sys.client.w| + |sys.client.r| + |sys.server.w| - |sys.server.relay.down.written|
    + |sys.server.r| - |sys.server.relay.up.read| + Stage(sys.server.c.pc)
  }

  /** Both directions hold at most all messages there are. */
  function Bound(cfg: Config): nat
    requires cfg.Valid()
  {
    var up := 4 + (if cfg.opt.Userpass? then |UserpassRequest(cfg.opt)| else 0) + |Request(cfg.target)|;
    2 * up + 2 * 26 + 2
  }

  /** How many moves are the handshake's. */
  function Steps(ms: seq<Move>): nat {
    if ms == [] then 0 else (if Relays(ms[0]) then 0 else 1) + Steps(ms[1..])
  }

  lemma ProgressMade(form: Form, cfg: Config, sys: Link, m: Move)
    requires Inv(cfg, sys) && |sys.client.r| <= 26 && Enabled(sys, m) && Clean(m)
    ensures var sys' := Next(form, cfg, sys, m);
            Progress(sys') >= Progress(sys) + (if Relays(m) then 0 else 1) && |sys'.client.r| <= 26
  {
    hide S.Story, S.AtPc, C.Inv, Joined, T.Stops, T.Limit, Stalls;
    match m {
      case ByClient(h) => ClientMoves(form, cfg, sys.client, h);
      case ByServer(Relayed(e)) => RelayMoves(sys.server, e);
      case ByServer(h) => ServerMoves(sys.server, h);
    }
  }

  lemma ClientMoves(form: Form, cfg: Config, s: C.Session, h: C.Happening)
    requires C.Inv(cfg, s) && C.Enabled(s, h) && Clean(ByClient(h))
    ensures var s' := C.Next(form, cfg, s, h);
            |s'.w| + |s'.r| > |s.w| + |s.r| && (|s.r| <= 26 ==> |s'.r| <= 26)
  {
    hide C.Gated, Greeting, UserpassRequest, Request, Joined, T.Stops, T.Limit, AfterRead, Granted;
  }

  /** The server has done something else than relay. */
  predicate Advances(s: S.Session, s': S.Session) {
    && |s'.w| + |s'.r| + Stage(s'.c.pc) > |s.w| + |s.r| + Stage(s.c.pc)
    && s'.relay.up.read == s.relay.up.read && s'.relay.down.written == s.relay.down.written
  }

  lemma ServerMoves(s: S.Session, h: S.Happening)
    requires S.Counts(s) && S.Enabled(s, h) && Clean(ByServer(h)) && !h.Relayed?
    ensures Advances(s, S.Next(s, h))
  {
    hide T.Stops, T.Limit, Reply, ReplyV4, V.AfterRead, V.AfterWrite, Joined;
    if h.Out? { ServerWrites(s, h.k); }
  }

  lemma ServerWrites(s: S.Session, k: nat)
    requires S.Counts(s) && S.Enabled(s, S.Out(k, Success))
    ensures Advances(s, S.Next(s, S.Out(k, Success)))
  {
    hide T.Stops, T.Limit, Joined;
  }

  /** What a relay loop moves is not the handshake's. */
  lemma RelayMoves(s: S.Session, e: Y.Event)
    requires S.Enabled(s, S.Relayed(e))
    ensures var s' := S.Next(s, S.Relayed(e));
            && s' == s.(relay := s'.relay, r := s'.r, w := s'.w)
            && |s'.w| - |s'.relay.down.written| == |s.w| - |s.relay.down.written|
            && |s'.r| - |s'.relay.up.read| == |s.r| - |s.relay.up.read|
            && s.relay.down.written <= s'.relay.down.written
  {
    hide Y.OnRead, Y.OnWritten;
    S.PipeGrows(if e.Up? then s.relay.up else s.relay.down, e.c);
  }

  lemma Bounded(cfg: Config, sys: Link)
    requires Inv(cfg, sys) && |sys.client.r| <= 26
    ensures Progress(sys) <= Bound(cfg)
  {
    hide T.Stops, T.Limit, Joined, S.Story, S.AtPc, C.AtPc, Stalls, Request, UserpassRequest, Greeting;
    ClientBounded(cfg, sys.client);
    ServerBounded(sys.server);
  }

  lemma ClientBounded(cfg: Config, s: C.Session)
    requires C.Inv(cfg, s)
    ensures |s.w| <= 4 + (if cfg.opt.Userpass? then |UserpassRequest(cfg.opt)| else 0) + |Request(cfg.target)|
  {
    hide Greeting, UserpassRequest, Request, Joined, C.AtPc;
    C.BegunWritten(cfg, s);
    JoinedNone();
    JoinedShort(C.Begun(s));
  }

  lemma ServerBounded(s: S.Session)
    requires S.Inv(s)
    ensures |s.w| - |s.relay.down.written| <= 26
  {
    hide T.Stops, T.Limit, Joined, S.AtPc, Reply, ReplyV4, ParseGreeting, ParseConnect, ParseConnectV4;
    ServerWritten(s);
    JoinedNone();
    JoinedShort(S.Begun(s));
  }

  // ---------------------------------------------------------------- the course of such a run

  /** What the server says before its reply, if everything goes on. */
  function Opening(cfg: Config): (pre: seq<Octet>)
    ensures Preamble(cfg.opt, pre)
  {
    if cfg.opt.Userpass? then [5, 2, 1, 0] else [5, 0]
  }

  /** All messages of the client. */
  function Asked(cfg: Config): seq<seq<Octet>>
    requires cfg.Valid()
  {
    Script(cfg, Opening(cfg))
  }

  /** The server's reply: success if it has connected, else host unreachable. */
  function Verdict(s: S.Session): seq<Octet> { Reply(if s.connected then 0 else 4, s.local) }

  predicate Replied(s: S.Session) {
    |s.out| == S.AuthSize(s.c.choice) + 1 && s.out[|s.out| - 1] == Verdict(s)
  }

  /** What a run without faults adds to the invariant: the server has read nothing but whole messages of the
      client, and goes on with each; the client stops at nothing but the reply, or past one of IPv4. */
  predicate OnCourse(cfg: Config, sys: Link)
    requires cfg.Valid()
  {
    var s := sys.server;
    && s.relay.up.read == [] && s.log <= Asked(cfg)
    && (match s.c.pc
        case Dialling(v4) => !v4
        case WritingReply(v4) => !v4 && s.c.data == Verdict(s)
        case Relaying => Replied(s) && s.connected
        case Closed => Replied(s) && !s.connected
        case _ => true)
    && (s.connected ==> s.c.pc.WritingReply? || s.c.pc.Relaying?)
    && (sys.client.pc.Complete? ==>
          && |s.log| == |Asked(cfg)| && |S.Begun(s)| == |s.log|
          && ((sys.client.r == Opening(cfg) + Verdict(s) && sys.client.pc == Told(s)) || Overran(cfg, sys)))
  }

  /** The client has taken in twelve relayed octets with the reply, and refused it for its size. */
  predicate Overran(cfg: Config, sys: Link) {
    var s := sys.server;
    && s.connected && s.local.V4? && 12 <= |s.relay.down.written|
    && sys.client.r == Opening(cfg) + Verdict(s) + s.relay.down.written[..12]
    && sys.client.pc == Complete(BAD_REPLY_SIZE, UNSPECIFIED)
  }

  /** The client has taken in relayed octets with the reply, fewer than twelve, and waits for more. */
  predicate Waits(cfg: Config, sys: Link) {
    var s := sys.server;
    && s.connected && s.local.V4? && 1 <= |s.relay.down.written| <= 11
    && sys.client.r == Opening(cfg) + Verdict(s) + s.relay.down.written
    && sys.client.pc.ReadReply?
  }

  /** The client's result that fits what the server did. */
  function Told(s: S.Session): Pc {
    if s.connected then Complete(Socks(0), s.local) else Complete(Socks(4), UNSPECIFIED)
  }

  /** The server's octets are a piece of the opening, or of the opening, its reply and what it relayed. */
  lemma ServerOctets(cfg: Config, sys: Link)
    requires Inv(cfg, sys)
    ensures var s, b := sys.server, S.Begun(sys.server);
            s.w <= Opening(cfg) ||
            (|b| == S.AuthSize(s.c.choice) + 1 == |s.log|
             && s.w <= Opening(cfg) + b[|b| - 1] + s.relay.down.written)
    ensures |sys.server.w| > 0 ==> |sys.server.log| > 0 && sys.server.log[0] == Greeting(cfg.opt)
                                   && sys.server.c.choice == cfg.opt.Code()
  {
    hide ParseGreeting, ParseConnect, ParseConnectV4, Reply, T.Limit, T.Stops, Joined, Greeting,
         C.AtPc, C.Gated, Stalls;
    var s := sys.server;
    if s.w != [] {
      AnswersInKind(cfg, sys);
      if |s.w| > 2 {
        var pre := ServerSpeaks(s);
        GreetingHeard(cfg, sys);
      } else {
        ServerChoice(s);
        GreetingHeard(cfg, sys);
      }
    }
  }

  lemma ServerChoice(s: S.Session)
    requires S.Inv(s) && 0 < |s.w| <= 2 && s.w[0] == 5
    ensures 0 < |s.log| && ParseGreeting(s.log[0]) == Some(s.c.choice) && s.w <= [5, s.c.choice]
  {
    hide ParseGreeting, ParseConnect, ParseConnectV4, Reply, T.Limit, T.Stops, Joined;
    var b := S.Begun(s);
    ServerWritten(s);
    JoinedNone();
    assert b != [];
    JoinedStart(b);
    JoinedShort(s.out);
    assert s.w[0] == b[0][0];
    assert |b[0]| != 8;
    assert s.w <= b[0];
  }

  /** The client writes no further than the server's answers allow. */
  lemma ClientOctets(cfg: Config, s: C.Session)
    requires C.Inv(cfg, s)
    ensures |s.r| < 2 ==> s.w <= Greeting(cfg.opt)
    ensures cfg.opt.Userpass? && |s.r| < 4 && (|s.r| >= 2 ==> s.r[1] == 2)
            ==> s.w <= Greeting(cfg.opt) + UserpassRequest(cfg.opt)
    ensures (|s.r| >= 2 ==> s.r[..2] == [5, cfg.opt.Code()]) ==> s.w <= Joined(Asked(cfg))
  {
    hide Greeting, UserpassRequest, Request, Joined, C.AtPc;
    C.BegunWritten(cfg, s);
    var b := C.Begun(s);
    JoinedNone();
    JoinedShort(b);
    JoinedShort(Asked(cfg));
  }

  // ---------------------------------------------------------------- the server stays on course

  /** What the server has received in its present read is a piece of the client's next message. */
  lemma ServerReceives(cfg: Config, sys: Link, got: seq<Octet>)
    requires Inv(cfg, sys) && OnCourse(cfg, sys) && sys.server.c.pc.Reading()
    requires Joined(sys.server.log) + got <= sys.client.w
    ensures |sys.server.log| < |Asked(cfg)| && got <= Asked(cfg)[|sys.server.log|]
    ensures sys.server.log == Asked(cfg)[..|sys.server.log|]
    ensures sys.server.c.pc.ReadingGreeting? ==> |sys.server.log| == 0
    ensures sys.server.c.pc.ReadingUserpass? ==> |sys.server.log| == 1 && cfg.opt.Userpass?
    ensures sys.server.c.pc.ReadingConnect? ==> |sys.server.log| == |Asked(cfg)| - 1
  {
    hide Greeting, UserpassRequest, Request, Joined, C.AtPc, C.Gated, T.Stops, T.Limit, S.Story, Reply,
         ParseGreeting, ParseConnect, ParseConnectV4;
    var s := sys.server;
    ServerOctets(cfg, sys);
    ClientOctets(cfg, sys.client);
    JoinedNone();
    JoinedShort(s.log);
    JoinedShort(Asked(cfg));
    OutWritten(s);
    match s.c.pc {
      case ReadingGreeting => assert [] + got == got;
      case ReadingUserpass =>
        assert s.log == [Greeting(cfg.opt)];
        PrefixTail(Greeting(cfg.opt), got, UserpassRequest(cfg.opt));
      case ReadingConnect =>
        assert sys.client.r <= Opening(cfg);
        assert |sys.client.r| >= 2 ==> sys.client.r[..2] == Opening(cfg)[..2];
        LastJoined(Asked(cfg));
        assert s.log == Asked(cfg)[..|Asked(cfg)| - 1];
        PrefixTail(Joined(s.log), got, Request(cfg.target));
    }
  }

  lemma PrefixTail(a: seq<Octet>, b: seq<Octet>, c: seq<Octet>)
    requires a + b <= a + c
    ensures b <= c
  {
    assert b == (a + b)[|a|..] && c == (a + c)[|a|..];
  }

  lemma LastJoined(msgs: seq<seq<Octet>>)
    requires msgs != []
    ensures Joined(msgs) == Joined(msgs[..|msgs| - 1]) + msgs[|msgs| - 1]
  {
  }

  /** While it reads, the server has written exactly its complete messages. */
  lemma OutWritten(s: S.Session)
    requires S.Inv(s) && s.c.pc.Reading()
    ensures s.c.pc.ReadingGreeting? ==> s.w == []
    ensures s.c.pc.ReadingUserpass? ==> s.w == [5, 2]
    ensures s.c.pc.ReadingConnect? ==> |s.w| == 2 * S.AuthSize(s.c.choice)
  {
    hide T.Stops, T.Limit, Joined, Reply, ReplyV4, ParseGreeting, ParseConnect, ParseConnectV4;
    JoinedNone();
    JoinedShort(s.out);
  }

  /** A read of the server ends with the client's whole message, and with no less. For user/pass that takes
      all of 513 octets. */
  lemma ReadEndsWhole(cfg: Config, pc: V.Pc, msg: seq<Octet>, got: seq<Octet>)
    requires cfg.Valid() && Expressible(cfg.target) && pc.Reading() && got <= msg && |got| <= pc.Size()
    requires match pc
             case ReadingGreeting => msg == Greeting(cfg.opt)
             case ReadingUserpass => cfg.opt.Userpass? && msg == UserpassRequest(cfg.opt)
             case _ => msg == Request(cfg.target)
    ensures T.Stops(pc.Cond(), pc.Size(), Success, got)
            <==> got == msg && (pc.ReadingUserpass? ==> |msg| == 513)
  {
  }

  lemma GreetingIsList(opt: AuthOptions)
    ensures Greeting(opt) == MethodList(Methods(opt))
  {
  }

  /** Each whole message is accepted. */
  lemma WholeAccepted(cfg: Config, c: V.Conn)
    requires cfg.Valid() && Expressible(cfg.target) && c.pc.Reading() && |c.data| <= c.pc.Size()
    requires T.Stops(c.pc.Cond(), c.pc.Size(), Success, c.data)
    requires match c.pc
             case ReadingGreeting => c.data == Greeting(cfg.opt)
             case ReadingUserpass =>
               cfg.opt.Userpass? && c.data == UserpassRequest(cfg.opt) && |UserpassRequest(cfg.opt)| == 513
             case _ => c.data == Request(cfg.target)
    ensures var pc := V.AfterRead(c, Success).pc;
            if c.pc.ReadingGreeting? then pc.WritingChoice?
            else if c.pc.ReadingUserpass? then pc.WritingStatus?
            else pc.Resolving? || pc == V.Dialling(false)
  {
    hide T.Stops, T.Limit, Request, UserpassRequest, Greeting;
    GreetingIsList(cfg.opt);
    NegotiationAgreement(cfg.opt, 0);
    match c.pc {
      case ReadingGreeting => FirstIsFive(cfg.opt);
      case ReadingUserpass => UserpassAsWritten(cfg.opt);
      case ReadingConnect => RequestRoundTrip(cfg.target);
    }
  }

  lemma FirstIsFive(opt: AuthOptions)
    ensures Greeting(opt)[0] == 5
  {
  }

  lemma ServerDataOnCourse(cfg: Config, sys: Link, data: seq<Octet>)
    requires Inv(cfg, sys) && OnCourse(cfg, sys) && Expressible(cfg.target)
    requires Enabled(sys, ByServer(S.Data(data, Success)))
    ensures var s' := S.Next(sys.server, S.Data(data, Success));
            OnCourse(cfg, sys.(server := s')) && !Past(s') && s'.connected == sys.server.connected
  {
    hide Greeting, UserpassRequest, Request, Joined, C.AtPc, C.Gated, T.Stops, T.Limit, S.Story, Reply,
         ParseGreeting, ParseConnect, ParseConnectV4, Stalls;
    var s := sys.server;
    var got := s.c.data + data;
    assert s.r + data == Joined(s.log) + got;
    ServerReceives(cfg, sys, got);
    var msg := Asked(cfg)[|s.log|];
    ReadEndsWhole(cfg, s.c.pc, msg, got);
    if T.Stops(s.c.pc.Cond(), s.c.pc.Size(), Success, got) {
      WholeAccepted(cfg, s.c.(data := got));
      hide V.AfterRead;
      assert s.log + [got] == Asked(cfg)[..|s.log| + 1];
    }
  }

  lemma ServerOutOnCourse(cfg: Config, sys: Link, k: nat)
    requires Inv(cfg, sys) && OnCourse(cfg, sys) && Enabled(sys, ByServer(S.Out(k, Success)))
    ensures OnCourse(cfg, sys.(server := S.Next(sys.server, S.Out(k, Success))))
  {
    hide Greeting, UserpassRequest, Request, Joined, C.Inv, T.Stops, T.Limit, Reply, S.Story,
         ParseGreeting, ParseConnect, ParseConnectV4, Stalls;
    var s := sys.server;
    if s.c.n + k == |s.c.data| {
      hide OnCourse, S.Next;
      if s.c.pc.WritingReply? { ReplyOutOnCourse(cfg, sys, k); } else { ExchangeOutOnCourse(cfg, sys, k); }
    }
  }

  lemma ReplyOutOnCourse(cfg: Config, sys: Link, k: nat)
    requires Inv(cfg, sys) && OnCourse(cfg, sys) && Enabled(sys, ByServer(S.Out(k, Success)))
    requires sys.server.c.n + k == |sys.server.c.data| && sys.server.c.pc.WritingReply?
    ensures OnCourse(cfg, sys.(server := S.Next(sys.server, S.Out(k, Success))))
  {
    hide Greeting, UserpassRequest, Request, Joined, C.Inv, T.Stops, T.Limit, Reply, S.Story,
         ParseGreeting, ParseConnect, ParseConnectV4, Stalls;
    var s := sys.server;
    S.OutDone(s, k);
    S.AnyBound(if s.connected then 0 else 4, s.local);
  }

  lemma ExchangeOutOnCourse(cfg: Config, sys: Link, k: nat)
    requires Inv(cfg, sys) && OnCourse(cfg, sys) && Enabled(sys, ByServer(S.Out(k, Success)))
    requires sys.server.c.n + k == |sys.server.c.data| && !sys.server.c.pc.WritingReply?
    ensures OnCourse(cfg, sys.(server := S.Next(sys.server, S.Out(k, Success))))
  {
    hide Greeting, UserpassRequest, Request, Joined, C.Inv, T.Stops, T.Limit, Reply, S.Story,
         ParseGreeting, ParseConnect, ParseConnectV4, Stalls;
    S.OutDone(sys.server, k);
    if sys.server.c.pc.WritingChoice? { ChoiceOnCourse(cfg, sys); }
  }

  /** The choice on its way out is one the client offers. */
  lemma ChoiceOnCourse(cfg: Config, sys: Link)
    requires Inv(cfg, sys) && sys.server.c.pc.WritingChoice?
    ensures sys.server.c.choice == cfg.opt.Code()
  {
    hide Greeting, UserpassRequest, Request, Joined, C.AtPc, C.Gated, T.Stops, T.Limit, Reply,
         ParseGreeting, ParseConnect, ParseConnectV4, Stalls;
    assert S.Begun(sys.server) == [sys.server.c.data];
    GreetingHeard(cfg, sys);
  }

  lemma ServerTargetOnCourse(cfg: Config, sys: Link, h: S.Happening)
    requires Inv(cfg, sys) && OnCourse(cfg, sys) && Enabled(sys, ByServer(h)) && (h.Resolved? || h.Dialled?)
    ensures OnCourse(cfg, sys.(server := S.Next(sys.server, h)))
  {
    hide Greeting, UserpassRequest, Request, Joined, C.AtPc, C.Gated, T.Stops, T.Limit, Reply, S.StoryV5,
         ParseGreeting, ParseConnect, ParseConnectV4, Stalls;
    S.AnyBound(4, sys.server.local);
    if h.Dialled? { S.AnyBound(4, h.bnd); }
  }

  /** The client has nothing to relay: the server has read all that it wrote. */
  lemma RelayOnCourse(cfg: Config, sys: Link, e: Y.Event)
    requires Inv(cfg, sys) && OnCourse(cfg, sys) && Enabled(sys, ByServer(S.Relayed(e)))
    ensures OnCourse(cfg, sys.(server := S.Next(sys.server, S.Relayed(e))))
  {
    hide OnCourse, S.Story, S.AtPc, C.AtPc, C.Gated, Joined, Stalls, T.Stops, T.Limit;
    RelayMoves(sys.server, e);
    NothingUp(cfg, sys);
    var s' := S.Next(sys.server, S.Relayed(e));
    assert s'.relay.up.read == sys.server.relay.up.read;
    SameCourse(cfg, sys, s');
  }

  lemma SameCourse(cfg: Config, sys: Link, s': S.Session)
    requires cfg.Valid() && OnCourse(cfg, sys)
    requires s' == sys.server.(relay := s'.relay, r := s'.r, w := s'.w)
    requires s'.relay.up.read == [] && sys.server.relay.down.written <= s'.relay.down.written
    ensures OnCourse(cfg, sys.(server := s'))
  {
    hide Joined, Reply, Greeting, UserpassRequest, Request;
    var was, now := sys.server.relay.down.written, s'.relay.down.written;
    assert 12 <= |was| ==> was[..12] == now[..12];
  }

  lemma NothingUp(cfg: Config, sys: Link)
    requires Inv(cfg, sys) && OnCourse(cfg, sys) && sys.server.c.pc.Relaying?
    ensures sys.server.log == Asked(cfg) && sys.server.r == sys.client.w && sys.server.relay.up.read == []
  {
    hide Greeting, UserpassRequest, Request, Joined, C.AtPc, C.Gated, T.Stops, T.Limit, Reply, Stalls,
         ParseGreeting, ParseConnect, ParseConnectV4, S.Story;
    var s := sys.server;
    ServerOctets(cfg, sys);
    ServerSaid(s);
    ClientOctets(cfg, sys.client);
    assert s.log == Asked(cfg);
    assert |sys.client.r| >= 2 ==> sys.client.r[..2] == Opening(cfg)[..2];
    assert s.r == Joined(s.log) + [] + [];
  }

  // ---------------------------------------------------------------- the client stays on course

  /** What the client has received begins with the opening. */
  lemma ClientReceives(cfg: Config, sys: Link, r: seq<Octet>)
    requires Inv(cfg, sys) && OnCourse(cfg, sys) && r <= sys.server.w
    ensures r <= Opening(cfg) ||
            (&& Opening(cfg) <= r && r[|Opening(cfg)|..] <= Verdict(sys.server) + sys.server.relay.down.written
             && |sys.server.log| == |Asked(cfg)| == |S.Begun(sys.server)|)
  {
    hide Greeting, UserpassRequest, Request, Joined, C.AtPc, C.Gated, T.Stops, T.Limit, Reply,
         ParseGreeting, ParseConnect, ParseConnectV4, Stalls;
    var s := sys.server;
    ServerOctets(cfg, sys);
    if !(s.w <= Opening(cfg)) {
      assert S.Begun(s)[|S.Begun(s)| - 1] == Verdict(s);
      PieceOf(Opening(cfg), Verdict(s) + s.relay.down.written, s.w, r);
    } else {
      PieceOf(Opening(cfg), [], s.w, r);
    }
  }

  lemma PieceOf(a: seq<Octet>, b: seq<Octet>, w: seq<Octet>, r: seq<Octet>)
    requires w <= a + b && r <= w
    ensures r <= a || (a <= r && r[|a|..] <= b)
  {
    assert r == (a + b)[..|r|];
    if |r| <= |a| { assert r == a[..|r|]; } else { assert r[|a|..] == b[..|r| - |a|] && a == r[..|a|]; }
  }

  lemma VerdictStops(s: S.Session, got: seq<Octet>)
    requires got <= Verdict(s)
    ensures T.Stops(T.ReplyCond, 22, Success, got) <==> got == Verdict(s)
    ensures got == Verdict(s) ==> (|got| == 10 || |got| == 22) && DecodeReply(got) == Decoded(Told(s).ec, Told(s).ep)
  {
  }

  /** Behind a granted IPv4 reply the read goes on to all of 22 octets, and these are refused. */
  lemma PastReply(s: S.Session, got: seq<Octet>)
    requires s.connected && Verdict(s) < got && |got| <= 22
    ensures s.local.V4? && |Verdict(s)| == 10
    ensures T.Stops(T.ReplyCond, 22, Success, got) <==> |got| == 22
    ensures |got| == 22 ==> DecodeReply(got) == Decoded(BAD_REPLY_SIZE, UNSPECIFIED)
  {
    var v := Verdict(s);
    assert got[0] == v[0] && got[1] == v[1] && got[3] == v[3];
  }

  lemma ReplyDataOnCourse(form: Form, cfg: Config, sys: Link, data: seq<Octet>)
    requires Inv(cfg, sys) && OnCourse(cfg, sys) && Enabled(sys, ByClient(C.Data(data, Success)))
    requires sys.client.pc.ReadReply?
    ensures OnCourse(cfg, sys.(client := C.Next(form, cfg, sys.client, C.Data(data, Success))))
  {
    hide Greeting, UserpassRequest, Request, Joined, C.Gated, T.Limit, T.Stops, S.Story, S.AtPc, Reply,
         Stalls, DecodeReply;
    var c, s := sys.client, sys.server;
    var got := c.got + data;
    OpeningRead(cfg, sys);
    ClientReceives(cfg, sys, c.r + data);
    assert c.r + data == Opening(cfg) + got;
    assert (c.r + data)[|Opening(cfg)|..] == got;
    var all := Verdict(s) + s.relay.down.written;
    if |got| <= |Verdict(s)| {
      assert got == all[..|got|] == Verdict(s)[..|got|];
      VerdictStops(s, got);
    } else {
      assert got == Verdict(s) + s.relay.down.written[..|got| - |Verdict(s)|];
      PastReply(s, got);
      assert |got| == 22 ==> c.r + data == Opening(cfg) + Verdict(s) + s.relay.down.written[..12];
    }
  }

  /** A client that reads the reply has read the opening. */
  lemma OpeningRead(cfg: Config, sys: Link)
    requires Inv(cfg, sys) && OnCourse(cfg, sys) && sys.client.pc.ReadReply?
    ensures C.PreambleOf(sys.client.r) == Opening(cfg) && sys.client.r == Opening(cfg) + sys.client.got
  {
    hide Greeting, UserpassRequest, Request, Joined, C.Gated, T.Limit, T.Stops, S.Story, S.AtPc, Reply, Stalls;
    ClientReceives(cfg, sys, sys.client.r);
  }

  lemma ClientDataOnCourse(form: Form, cfg: Config, sys: Link, data: seq<Octet>)
    requires Inv(cfg, sys) && OnCourse(cfg, sys) && Enabled(sys, ByClient(C.Data(data, Success)))
    ensures OnCourse(cfg, sys.(client := C.Next(form, cfg, sys.client, C.Data(data, Success))))
  {
    hide Greeting, UserpassRequest, Request, Joined, C.Gated, T.Limit, T.Stops, S.Story, S.AtPc, Reply,
         Stalls, DecodeReply, OnCourse;
    var c := sys.client;
    var got := c.got + data;
    if c.pc.ReadReply? {
      ReplyDataOnCourse(form, cfg, sys, data);
    } else {
      ClientReceives(cfg, sys, c.r + data);
      if T.Stops(T.TransferAll, 2, Success, got) {
        PairStops(got);
        assert got[0] == (c.r + data)[|c.r| - |c.got|];
        assert got[1] == (c.r + data)[|c.r| - |c.got| + 1];
      }
      StillRuns(cfg, sys, C.Next(form, cfg, c, C.Data(data, Success)));
    }
  }

  /** A client that goes on changes nothing the course is about. */
  lemma StillRuns(cfg: Config, sys: Link, c: C.Session)
    requires cfg.Valid() && OnCourse(cfg, sys) && !c.pc.Complete?
    ensures OnCourse(cfg, sys.(client := c))
  {
  }

  lemma PairStops(got: seq<Octet>)
    requires |got| <= 2 && T.Stops(T.TransferAll, 2, Success, got)
    ensures |got| == 2
  {
  }

  lemma ClientOutOnCourse(form: Form, cfg: Config, sys: Link, k: nat)
    requires Inv(cfg, sys) && OnCourse(cfg, sys) && Enabled(sys, ByClient(C.Out(k, Success)))
    ensures OnCourse(cfg, sys.(client := C.Next(form, cfg, sys.client, C.Out(k, Success))))
  {
    hide Greeting, UserpassRequest, Request, Joined, C.Gated, T.Limit, S.Story, S.AtPc, Reply, Stalls, Message,
         OnCourse;
    StillRuns(cfg, sys, C.Next(form, cfg, sys.client, C.Out(k, Success)));
  }

  lemma StepOnCourse(form: Form, cfg: Config, sys: Link, m: Move)
    requires Inv(cfg, sys) && OnCourse(cfg, sys) && Expressible(cfg.target) && Enabled(sys, m) && Clean(m)
    ensures OnCourse(cfg, Next(form, cfg, sys, m))
  {
    hide OnCourse, C.Next, S.Next, Inv;
    match m {
      case ByClient(Data(data, _)) => ClientDataOnCourse(form, cfg, sys, data);
      case ByClient(Out(k, _)) => ClientOutOnCourse(form, cfg, sys, k);
      case ByServer(Data(data, _)) => ServerDataOnCourse(cfg, sys, data);
      case ByServer(Out(k, _)) => ServerOutOnCourse(cfg, sys, k);
      case ByServer(Relayed(e)) => RelayOnCourse(cfg, sys, e);
      case ByServer(h) => ServerTargetOnCourse(cfg, sys, h);
    }
  }

  // ---------------------------------------------------------------- no run is stuck

  /** The server gets to the end of its user/pass read. */
  predicate Answered(opt: AuthOptions) { opt.Userpass? ==> |opt.user| == |opt.pass| == 255 }

  /** The handshake can go on. */
  ghost predicate CanMove(sys: Link) { exists m: Move :: Clean(m) && !Relays(m) && Enabled(sys, m) }

  /** Whoever writes can go on, and so can whoever has something to read. */
  lemma Moves(cfg: Config, sys: Link)
    requires Inv(cfg, sys)
    ensures sys.client.pc.Writing() || sys.server.c.pc.Writing() ==> CanMove(sys)
    ensures sys.server.c.pc.Resolving? || sys.server.c.pc.Dialling? ==> CanMove(sys)
    ensures sys.client.pc.Reading() && sys.client.r != sys.server.w ==> CanMove(sys)
    ensures sys.server.c.pc.Reading() && sys.server.r != sys.client.w ==> CanMove(sys)
  {
    hide Greeting, UserpassRequest, Request, Joined, C.Inv, T.Limit, S.Story, S.AtPc, Reply, Stalls;
    var c, s := sys.client, sys.server;
    if c.pc.Writing() || (c.pc.Reading() && c.r != s.w) { ClientCan(cfg, sys); }
    if s.c.pc.Writing() { assert Enabled(sys, ByServer(S.Out(1, Success))); }
    if s.c.pc.Resolving? { assert Enabled(sys, ByServer(S.Resolved(None))); }
    if s.c.pc.Dialling? { assert Enabled(sys, ByServer(S.Dialled(false, UNSPECIFIED))); }
    if s.c.pc.Reading() && s.r != c.w {
      var data := [c.w[|s.r|]];
      assert s.r + data == c.w[..|s.r| + 1];
      assert Enabled(sys, ByServer(S.Data(data, Success)));
    }
  }

  lemma ClientCan(cfg: Config, sys: Link)
    requires Inv(cfg, sys)
    requires sys.client.pc.Writing() || (sys.client.pc.Reading() && sys.client.r != sys.server.w)
    ensures CanMove(sys)
  {
    hide Greeting, UserpassRequest, Request, Joined, C.Gated, T.Limit, T.Stops, S.Inv, Stalls;
    var c, s := sys.client, sys.server;
    if c.pc.Writing() {
      assert Enabled(sys, ByClient(C.Out(1, Success)));
    } else {
      var data := [s.w[|c.r|]];
      assert c.r + data == s.w[..|c.r| + 1];
      ReadsOn(c);
      assert Enabled(sys, ByClient(C.Data(data, Success)));
    }
  }

  lemma ReadsOn(c: C.Session)
    requires c.pc.Reading() && |c.got| < c.pc.Size() && (c.pc.ReadReply? ==> !T.Stops(T.ReplyCond, 22, Success, c.got))
    ensures T.Limit(c.pc.Cond(), Success, c.got, c.pc.Size()) > 0
  {
  }

  /** Both ends cannot wait for each other, unless the client has taken in what is not its own. */
  lemma NeverStuck(cfg: Config, sys: Link)
    requires Inv(cfg, sys) && OnCourse(cfg, sys) && Expressible(cfg.target) && Answered(cfg.opt)
    ensures sys.client.pc.Complete? || CanMove(sys) || Waits(cfg, sys)
  {
    hide Greeting, UserpassRequest, Request, Joined, C.AtPc, C.Gated, T.Stops, T.Limit, S.Story, S.AtPc, Reply,
         Stalls, OnCourse, CanMove, Inv, Waits;
    Moves(cfg, sys);
    var s := sys.server.c.pc;
    if !sys.client.pc.Complete? && !CanMove(sys) {
      if s.Reading() { BothWait(cfg, sys); } else { AllSaid(cfg, sys); }
    }
  }

  lemma AllSaid(cfg: Config, sys: Link)
    requires Inv(cfg, sys) && OnCourse(cfg, sys) && (sys.server.c.pc.Relaying? || sys.server.c.pc.Closed?)
    requires sys.client.pc.Reading()
    ensures sys.client.r != sys.server.w || Waits(cfg, sys)
  {
    hide Greeting, UserpassRequest, Request, Joined, C.Gated, T.Stops, T.Limit, Reply, Stalls,
         ParseGreeting, ParseConnect, ParseConnectV4;
    var c, s := sys.client, sys.server;
    if c.r == s.w {
      ServerSaid(s);
      assert c.pc.ReadReply?;
      OpeningRead(cfg, sys);
      ClientReceives(cfg, sys, c.r);
      assert c.r[|Opening(cfg)|..] == c.got == Verdict(s) + s.relay.down.written;
      if s.relay.down.written == [] {
        assert c.got == Verdict(s);
        VerdictStops(s, c.got);
      } else {
        PastReply(s, c.got);
        assert c.r == Opening(cfg) + Verdict(s) + s.relay.down.written;
      }
    }
  }

  /** A reply written whole, and what was relayed since. */
  lemma ServerSaid(s: S.Session)
    requires S.Inv(s) && Replied(s)
    ensures |s.w| == 2 * S.AuthSize(s.c.choice) + |Verdict(s)| + |s.relay.down.written|
  {
    hide Joined, T.Stops, T.Limit, Reply, ParseGreeting, ParseConnect, ParseConnectV4;
    JoinedShort(s.out);
  }

  /** What a client that waits at the end of each answer has written. */
  lemma ClientAsked(cfg: Config, c: C.Session)
    requires C.Inv(cfg, c) && c.pc.Reading()
    ensures c.w == Joined(c.out)
    ensures c.r == [] ==> c.out == [Greeting(cfg.opt)]
    ensures c.r == [5, 2] ==> cfg.opt.Userpass? && c.out == [Greeting(cfg.opt), UserpassRequest(cfg.opt)]
    ensures c.r == Opening(cfg) ==> c.out == Asked(cfg)
  {
    hide Greeting, UserpassRequest, Request, Joined, C.Gated, T.Stops, T.Limit;
    assert c.w == Joined(c.out) + [];
  }

  lemma BothWait(cfg: Config, sys: Link)
    requires Inv(cfg, sys) && OnCourse(cfg, sys) && Expressible(cfg.target) && Answered(cfg.opt)
    requires sys.client.pc.Reading() && sys.server.c.pc.Reading()
    ensures sys.client.r != sys.server.w || sys.server.r != sys.client.w
  {
    hide Greeting, UserpassRequest, Request, Joined, C.AtPc, C.Gated, T.Stops, T.Limit, S.Story, Reply, Stalls,
         ParseGreeting, ParseConnect, ParseConnectV4;
    var c, s := sys.client, sys.server;
    if c.r == s.w && s.r == c.w {
      var n := |s.log|;
      ServerReceives(cfg, sys, s.c.data);
      ServerOctets(cfg, sys);
      OutWritten(s);
      ClientAsked(cfg, c);
      assert c.out == s.log + [Asked(cfg)[n]];
      JoinedMore(s.log, Asked(cfg)[n]);
      PrefixTail(Joined(s.log), Asked(cfg)[n], s.c.data);
      assert s.c.data == Asked(cfg)[n];
      ReadEndsWhole(cfg, s.c.pc, Asked(cfg)[n], s.c.data);
    }
  }

  // ---------------------------------------------------------------- runs

  lemma InitOnCourse(cfg: Config)
    requires cfg.Valid()
    ensures OnCourse(cfg, Init(cfg))
  {
  }

  lemma {:induction false} RunOnCourse(form: Form, cfg: Config, sys: Link, ms: seq<Move>)
    requires Inv(cfg, sys) && OnCourse(cfg, sys) && Expressible(cfg.target)
    requires CanDo(form, cfg, sys, ms) && AllClean(ms)
    ensures Inv(cfg, Do(form, cfg, sys, ms)) && OnCourse(cfg, Do(form, cfg, sys, ms))
    decreases |ms|
  {
    hide Next, Enabled, Clean, OnCourse;
    if ms != [] {
      StepOnCourse(form, cfg, sys, ms[0]);
      StepKeepsInv(form, cfg, sys, ms[0]);
      RunOnCourse(form, cfg, Next(form, cfg, sys, ms[0]), ms[1..]);
    }
  }

  lemma {:induction false} RunProgress(form: Form, cfg: Config, sys: Link, ms: seq<Move>)
    requires Inv(cfg, sys) && |sys.client.r| <= 26 && CanDo(form, cfg, sys, ms) && AllClean(ms)
    ensures var end := Do(form, cfg, sys, ms);
            Inv(cfg, end) && |end.client.r| <= 26 && Progress(sys) + Steps(ms) <= Progress(end)
    decreases |ms|
  {
    hide Next, Enabled, Clean, Progress;
    if ms != [] {
      ProgressMade(form, cfg, sys, ms[0]);
      StepKeepsInv(form, cfg, sys, ms[0]);
      RunProgress(form, cfg, Next(form, cfg, sys, ms[0]), ms[1..]);
    }
  }

  /** The handshake ends: without faults no interleaving and no cut of the data lets it make more moves than a
      bound that the messages give, however long the server goes on relaying. */
  lemma RunsEnd(form: Form, cfg: Config, ms: seq<Move>)
    requires cfg.Valid() && CanDo(form, cfg, Init(cfg), ms) && AllClean(ms)
    ensures Steps(ms) <= Bound(cfg)
  {
    hide Inv, Bound;
    InitInv(cfg);
    RunProgress(form, cfg, Init(cfg), ms);
    Bounded(cfg, Do(form, cfg, Init(cfg), ms));
  }

  // ---------------------------------------------------------------- what the target says

  /** The target has answered, or the resolver knows of none. */
  predicate Decides(m: Move) { m.ByServer? && (m.s.Dialled? || m.s == S.Resolved(None)) }

  /** The target's last answer. */
  function Accepted(ms: seq<Move>, was: bool): bool {
    if ms == [] then was
    else Accepted(ms[1..], if ms[0].ByServer? && ms[0].s.Dialled? then ms[0].s.ok else was)
  }

  /** What else than reading the server does leaves its log as it is, and the target's answer but for a new one;
      and only an answer, or a failed lookup, tells it what becomes of the request. */
  lemma OtherMoves(s: S.Session, h: S.Happening)
    requires S.Counts(s) && S.Enabled(s, h) && !h.Data?
    requires (h.Out? ==> h.ec == Success) && (s.c.pc.WritingChoice? ==> s.c.choice != 0xFF)
    ensures var s' := S.Next(s, h);
            && s'.log == s.log && s'.connected == (if h.Dialled? then h.ok else s.connected)
            && (Past(s') ==> Past(s) || Decides(ByServer(h)))
  {
    hide T.Limit, T.Stops, Reply, ReplyV4, Joined;
  }

  lemma DecidedBy(form: Form, cfg: Config, sys: Link, m: Move)
    requires Inv(cfg, sys) && OnCourse(cfg, sys) && Expressible(cfg.target) && Enabled(sys, m) && Clean(m)
    ensures var s, s' := sys.server, Next(form, cfg, sys, m).server;
            && s'.connected == (if m.ByServer? && m.s.Dialled? then m.s.ok else s.connected)
            && (Past(s') ==> Past(s) || Decides(m))
  {
    hide S.Story, S.AtPc, C.AtPc, C.Gated, Joined, Stalls, T.Stops, T.Limit, OnCourse, C.Next,
         V.AfterRead, V.AfterWrite;
    match m {
      case ByClient(_) =>
      case ByServer(Data(data, _)) => ServerDataOnCourse(cfg, sys, data);
      case ByServer(h) =>
        if sys.server.c.pc.WritingChoice? { ChoiceOnCourse(cfg, sys); }
        hide S.Next;
        OtherMoves(sys.server, h);
    }
  }

  lemma {:induction false} RunDecided(form: Form, cfg: Config, sys: Link, ms: seq<Move>)
    requires Inv(cfg, sys) && OnCourse(cfg, sys) && Expressible(cfg.target)
    requires CanDo(form, cfg, sys, ms) && AllClean(ms)
    ensures var end := Do(form, cfg, sys, ms).server;
            && end.connected == Accepted(ms, sys.server.connected)
            && (Past(end) ==> Past(sys.server) || exists m <- ms :: Decides(m))
    decreases |ms|
  {
    hide Next, Enabled, Clean, OnCourse, Past, Decides;
    if ms != [] {
      StepOnCourse(form, cfg, sys, ms[0]);
      StepKeepsInv(form, cfg, sys, ms[0]);
      DecidedBy(form, cfg, sys, ms[0]);
      RunDecided(form, cfg, Next(form, cfg, sys, ms[0]), ms[1..]);
    }
  }

  // ---------------------------------------------------------------- what the cut decides

  /** The client takes in relayed octets together with the end of the reply. */
  predicate Merges(sys: Link, m: Move) {
    && m.ByClient? && m.c.Data?
    && |sys.client.r| < |sys.server.w| - |sys.server.relay.down.written| < |sys.client.r| + |m.c.data|
  }

  /** No move of the run does that. */
  predicate MergeFree(form: Form, cfg: Config, sys: Link, ms: seq<Move>)
    requires sys.client.pc.Fits(cfg) && sys.server.c.Valid() && CanDo(form, cfg, sys, ms)
    decreases |ms|
  {
    ms == [] || (NextFits(form, cfg, sys, ms[0]);
                 !Merges(sys, ms[0]) && MergeFree(form, cfg, Next(form, cfg, sys, ms[0]), ms[1..]))
  }

  /** The client has received relayed octets. */
  predicate Merged(sys: Link) { |sys.client.r| > |sys.server.w| - |sys.server.relay.down.written| }

  lemma MergedBy(form: Form, cfg: Config, sys: Link, m: Move)
    requires Inv(cfg, sys) && OnCourse(cfg, sys) && Enabled(sys, m) && Clean(m)
    ensures Merged(Next(form, cfg, sys, m)) <==> Merged(sys) || Merges(sys, m)
  {
    hide S.Story, S.AtPc, C.AtPc, C.Gated, Joined, T.Stops, T.Limit, Stalls, OnCourse, C.Next, S.Next;
    match m {
      case ByClient(h) =>
        ClientGrows(form, cfg, sys.client, h);
        if h.Data? { EndsWithReply(cfg, sys); }
      case ByServer(Relayed(e)) => RelayMoves(sys.server, e);
      case ByServer(h) =>
        ServerMoves(sys.server, h);
        ServerGrows(sys.server, h);
        assert !Merged(sys);
    }
  }

  /** A client that has read all but what was relayed does not read on. */
  lemma EndsWithReply(cfg: Config, sys: Link)
    requires Inv(cfg, sys) && OnCourse(cfg, sys) && sys.client.pc.Reading()
    requires |sys.client.r| < |sys.server.w|
    ensures |sys.client.r| != |sys.server.w| - |sys.server.relay.down.written|
  {
    hide Greeting, UserpassRequest, Request, Joined, C.Gated, T.Stops, T.Limit, Reply, Stalls,
         ParseGreeting, ParseConnect, ParseConnectV4;
    var c, s := sys.client, sys.server;
    if |c.r| == |s.w| - |s.relay.down.written| {
      ServerSaid(s);
      ClientReceives(cfg, sys, c.r);
      assert c.pc.ReadReply?;
      OpeningRead(cfg, sys);
      assert c.got == (Verdict(s) + s.relay.down.written)[..|c.got|] == Verdict(s);
      VerdictStops(s, c.got);
    }
  }

  lemma {:induction false} RunMerged(form: Form, cfg: Config, sys: Link, ms: seq<Move>)
    requires Inv(cfg, sys) && OnCourse(cfg, sys) && Expressible(cfg.target)
    requires CanDo(form, cfg, sys, ms) && AllClean(ms)
    ensures Merged(Do(form, cfg, sys, ms)) <==> Merged(sys) || !MergeFree(form, cfg, sys, ms)
    decreases |ms|
  {
    hide Next, Enabled, Clean, OnCourse, Merged, Merges;
    if ms != [] {
      StepOnCourse(form, cfg, sys, ms[0]);
      StepKeepsInv(form, cfg, sys, ms[0]);
      MergedBy(form, cfg, sys, ms[0]);
      RunMerged(form, cfg, Next(form, cfg, sys, ms[0]), ms[1..]);
    }
  }

  /** What the state of the client tells about that. */
  lemma MergedShows(cfg: Config, sys: Link)
    requires Inv(cfg, sys) && OnCourse(cfg, sys)
    ensures sys.client.pc == Told(sys.server) ==> !Merged(sys)
    ensures Overran(cfg, sys) || Waits(cfg, sys) ==> Merged(sys)
    ensures sys.client.pc.Complete? ==> Past(sys.server) && (sys.client.pc == Told(sys.server) || Overran(cfg, sys))
  {
    hide Greeting, UserpassRequest, Request, Joined, C.Inv, T.Stops, T.Limit, Reply, Stalls, S.Story,
         ParseGreeting, ParseConnect, ParseConnectV4;
    var s := sys.server;
    ServerOctets(cfg, sys);
    if s.relay.down.written != [] { ServerSaid(s); }
  }

  // ---------------------------------------------------------------- the outcome

  /** And it ends, for every target the request can express, exactly as the data is cut. The client completes
      only if it offers no credentials or those that fill the server's buffer, and only after the target has
      answered or the lookup has failed. Its result is what the target answered, unless it has taken in twelve
      octets from behind an IPv4 reply. A run that cannot go on has come to the former result exactly if the
      credentials are such and no read of the client took in relayed octets with the end of the reply;
      otherwise, with such credentials, the client has refused the reply, or waits for octets to follow the one
      to eleven it has taken in behind it. */
  lemma HandshakeCompletes(form: Form, cfg: Config, ms: seq<Move>)
    requires cfg.Valid() && CanDo(form, cfg, Init(cfg), ms) && AllClean(ms)
    requires Expressible(cfg.target)
    ensures var end := Do(form, cfg, Init(cfg), ms);
            && (end.client.pc.Complete? ==>
                  && Answered(cfg.opt) && (end.client.pc == Told(end.server) || Overran(cfg, end))
                  && end.server.connected == Accepted(ms, false) && exists m <- ms :: Decides(m))
            && (!CanMove(end) ==>
                  && (end.client.pc == Told(end.server)
                      <==> Answered(cfg.opt) && MergeFree(form, cfg, Init(cfg), ms))
                  && (Answered(cfg.opt) && !MergeFree(form, cfg, Init(cfg), ms)
                      <==> Overran(cfg, end) || Waits(cfg, end)))
  {
    hide Inv, OnCourse, CanMove, Bound, Overran, Waits, Merged, MergeFree, Decides;
    InitInv(cfg);
    InitOnCourse(cfg);
    RunOnCourse(form, cfg, Init(cfg), ms);
    RunMerged(form, cfg, Init(cfg), ms);
    RunDecided(form, cfg, Init(cfg), ms);
    NotMergedYet(cfg);
    var end := Do(form, cfg, Init(cfg), ms);
    MergedShows(cfg, end);
    if Answered(cfg.opt) { NeverStuck(cfg, end); } else { NeverAnswered(cfg, end); }
  }

  /** Neither of those states lets the handshake go on. */
  lemma Standstill(cfg: Config, sys: Link)
    requires Inv(cfg, sys) && OnCourse(cfg, sys) && (Overran(cfg, sys) || Waits(cfg, sys))
    ensures !CanMove(sys)
  {
    hide Greeting, UserpassRequest, Request, Joined, C.Inv, T.Stops, T.Limit, Reply, Stalls,
         S.Story, ParseGreeting, ParseConnect, ParseConnectV4;
    var c, s := sys.client, sys.server;
    ServerOctets(cfg, sys);
    ServerSaid(s);
    if Waits(cfg, sys) { assert |c.r| == |s.w|; }
    forall m: Move | Clean(m) && !Relays(m) ensures !Enabled(sys, m) {}
  }

  lemma NotMergedYet(cfg: Config)
    requires cfg.Valid()
    ensures !Merged(Init(cfg)) && !Past(Init(cfg).server) && !Init(cfg).server.connected
  {
  }

  lemma NeverAnswered(cfg: Config, sys: Link)
    requires Inv(cfg, sys) && OnCourse(cfg, sys) && !Answered(cfg.opt)
    ensures !sys.client.pc.Complete? && !Overran(cfg, sys) && !Waits(cfg, sys)
  {
    hide S.Story, S.AtPc, C.AtPc, C.Gated, Joined, Reply;
    assert |UserpassRequest(cfg.opt)| < 513;
  }
}
