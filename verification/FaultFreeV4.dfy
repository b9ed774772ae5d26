/** SOCKS4 when no I/O fails: the handshake ends, and with what became of the connection to the target. */
module FaultFreeV4 {
  import opened Octets
  import opened Wire
  import opened ClientV4
  import opened HandshakeV4
  import C = ClientRuns
  import F = FaultFree
  import H = Handshake
  import R = ServerReads
  import S = ServerRuns
  import T = Transport
  import V = Server

  // ---------------------------------------------------------------- every handshake ends

  /** Octets moved by other than the relay loops, and the server's progress with the target. */
  function Progress(sys: Link): int {
    |sys.client.w| + |sys.client.r| + |sys.server.w| - |sys.server.relay.down.written|
    + |sys.server.r| - |sys.server.relay.up.read| + F.Stage(sys.server.c.pc)
  }

  lemma ProgressMade(wish: Wish, sys: Link, m: H.Move)
    requires Inv(wish, sys) && Enabled(wish, sys, m) && F.Clean(m)
    ensures Progress(Next(wish, sys, m)) >= Progress(sys) + (if F.Relays(m) then 0 else 1)
  {
    hide S.Story, S.AtPc, S.Next, Joined, T.Stops, T.Limit, Wish.Octets;
    match m {
      case ByClient(h) =>
      case ByServer(Relayed(e)) => F.RelayMoves(sys.server, e);
      case ByServer(h) => F.ServerMoves(sys.server, h);
    }
  }

  lemma {:induction false} RunProgress(wish: Wish, sys: Link, ms: seq<H.Move>)
    requires Inv(wish, sys) && CanDo(wish, sys, ms) && F.AllClean(ms)
    ensures Inv(wish, Do(wish, sys, ms)) && Progress(sys) + F.Steps(ms) <= Progress(Do(wish, sys, ms))
    decreases |ms|
  {
    hide Next, Enabled, F.Clean, Progress;
    if ms != [] {
      ProgressMade(wish, sys, ms[0]);
      StepKeepsInv(wish, sys, ms[0]);
      RunProgress(wish, Next(wish, sys, ms[0]), ms[1..]);
    }
  }

  /** Without faults the moves that are not the relay's are bounded by the length of the request. */
  lemma RunsEndV4(wish: Wish, ms: seq<H.Move>)
    requires wish.Valid() && CanDo(wish, Init(), ms) && F.AllClean(ms)
    ensures F.Steps(ms) <= 2 * |RequestV4(wish.ep, wish.user)| + 36
  {
    hide S.Story, S.AtPc, Joined, T.Stops, T.Limit;
    InitInv(wish);
    RunProgress(wish, Init(), ms);
    F.ServerBounded(Do(wish, Init(), ms).server);
  }

  // ---------------------------------------------------------------- the course of such a run

  /** The server's reply: granted if it has connected, else rejected. */
  function Verdict(s: S.Session): seq<Octet> { ReplyV4(if s.connected then 90 else 91, s.local) }

  /** The client's result that fits what the server did. */
  function Told(s: S.Session): PcV4 {
    if s.connected then CompleteV4(Socks(90), Garbled(s.local)) else CompleteV4(Socks(91), UNSPECIFIED)
  }

  /** The first octet of the request came alone, and so was all that the server read of it. */
  predicate Alone(s: S.Session) { s.log != [] && |s.log[0]| == 1 }

  /** What a run without faults adds to the invariant: the server dials what was asked for, unless it has read
      one octet alone, and answers with what became of it. */
  predicate OnCourse(wish: Wish, sys: Link) {
    var s := sys.server;
    && (match s.c.pc
        case ReadingGreeting => |s.c.data| != 1
        case Dialling(v4) => v4
        case WritingReply(v4) => v4 && s.c.data == Verdict(s)
        case Relaying => s.out == [Verdict(s)] && s.connected
        case Closed => s.out == [Verdict(s)] && !s.connected
        case _ => false)
    && (s.connected ==> s.c.pc.WritingReply? || s.c.pc.Relaying?)
    && (s.log != [] ==> if Alone(s) then !s.connected && !s.c.pc.Dialling? else s.c.target == wish.ep)
    && (sys.client.pc.CompleteV4? ==>
          |S.Begun(s)| == 1 && sys.client.r == Verdict(s) && sys.client.pc == Told(s))
  }

  lemma InitOnCourse(wish: Wish)
    ensures OnCourse(wish, Init())
  {
  }

  /** The reply is read as it is meant, but for the endpoint. */
  lemma VerdictTold(s: S.Session)
    ensures |Verdict(s)| == 8 && AfterReadV4(Success, Verdict(s)) == Told(s)
  {
    ReplyGarbled(if s.connected then 90 else 91, s.local);
  }

  lemma ClientOnCourse(wish: Wish, sys: Link, h: C.Happening)
    requires Inv(wish, sys) && OnCourse(wish, sys) && Enabled(wish, sys, H.ByClient(h)) && F.Clean(H.ByClient(h))
    ensures OnCourse(wish, Next(wish, sys, H.ByClient(h)))
  {
    hide S.Inv, ReplyV4, RequestV4, Verdict, Told, AfterReadV4;
    var s := sys.server;
    if h.Data? && |sys.client.r + h.data| == 8 {
      RepliesInKind(wish, sys);
      SaidSo(wish, sys);
      VerdictTold(s);
      assert sys.client.r + h.data == s.w[..8] == Verdict(s);
    }
  }

  /** What has been begun is the verdict. */
  lemma SaidSo(wish: Wish, sys: Link)
    requires Inv(wish, sys) && OnCourse(wish, sys) && |S.Begun(sys.server)| == 1
    ensures S.Begun(sys.server)[0] == Verdict(sys.server)
  {
    hide S.Story, Joined, Verdict, Told, T.Stops, T.Limit, ClientInv;
  }

  /** The server's read of a request goes on from two octets to nine at least. */
  lemma ReadOnCourse(wish: Wish, sys: Link, data: seq<Octet>)
    requires wish.Valid() && Inv(wish, sys) && OnCourse(wish, sys)
    requires Enabled(wish, sys, H.ByServer(S.Data(data, Success)))
    ensures var s' := S.Next(sys.server, S.Data(data, Success));
            OnCourse(wish, sys.(server := s')) && (F.Past(s') ==> Alone(s'))
  {
    hide S.Story, Joined, ReplyV4, RequestV4, ParseConnectV4, ParseGreeting, T.Limit, T.Stops, ClientInv;
    var s := sys.server;
    var got := s.c.data + data;
    Piece(wish, sys, data);
    R.V4StopsFromNine(wish.ep, wish.user);
    RequestStarts(wish);
    assert got == wish.Octets()[..|got|];
    if |got| == 1 {
      assert got == [4];
      OneOctet();
    } else if T.Stops(T.GreetingCond, 258, Success, got) {
      R.V4PrefixParsed(wish.ep, wish.user, got);
      assert got[0] == 4;
    }
    S.AnyBound(91, s.local);
  }

  lemma OneOctet()
    ensures T.Stops(T.GreetingCond, 258, Success, [4]) && ParseConnectV4([4]).None?
  {
  }

  /** The server reads a piece of the request. */
  lemma Piece(wish: Wish, sys: Link, data: seq<Octet>)
    requires Inv(wish, sys) && sys.server.c.pc.ReadingGreeting? && sys.server.r + data <= sys.client.w
    ensures sys.server.r == sys.server.c.data && sys.server.c.data + data <= wish.Octets()
    ensures S.Begun(sys.server) == []
  {
    hide S.Story, T.Limit, T.Stops, RequestV4;
    H.JoinedNone();
    assert sys.server.r == [] + sys.server.c.data + [];
  }

  lemma WriteOnCourse(wish: Wish, sys: Link, k: nat)
    requires Inv(wish, sys) && OnCourse(wish, sys) && Enabled(wish, sys, H.ByServer(S.Out(k, Success)))
    ensures OnCourse(wish, Next(wish, sys, H.ByServer(S.Out(k, Success))))
  {
    hide S.Story, Joined, ReplyV4, RequestV4, ParseConnectV4, ParseGreeting, T.Limit, T.Stops, ClientInv;
    var s := sys.server;
    S.AnyBound(if s.connected then 90 else 91, s.local);
    if s.c.n + k == |s.c.data| {
      S.OutDone(s, k);
      S.ReplyV4Told(s);
      assert [] + [s.c.data] == [s.c.data];
    }
  }

  lemma DialOnCourse(wish: Wish, sys: Link, h: S.Happening)
    requires Inv(wish, sys) && OnCourse(wish, sys) && Enabled(wish, sys, H.ByServer(h)) && (h.Resolved? || h.Dialled?)
    ensures OnCourse(wish, Next(wish, sys, H.ByServer(h)))
  {
    hide S.Story, Joined, ReplyV4, RequestV4, ParseConnectV4, ParseGreeting, T.Limit, T.Stops, ClientInv;
  }

  lemma StepOnCourse(wish: Wish, sys: Link, m: H.Move)
    requires wish.Valid() && Inv(wish, sys) && OnCourse(wish, sys) && Enabled(wish, sys, m) && F.Clean(m)
    ensures OnCourse(wish, Next(wish, sys, m))
  {
    hide OnCourse, S.Inv, S.Next, ClientNext, ClientInv;
    match m {
      case ByClient(h) => ClientOnCourse(wish, sys, h);
      case ByServer(Data(data, _)) => ReadOnCourse(wish, sys, data);
      case ByServer(Out(k, _)) => WriteOnCourse(wish, sys, k);
      case ByServer(Relayed(e)) => RelayOnCourse(wish, sys, m);
      case ByServer(h) => DialOnCourse(wish, sys, h);
    }
  }

  lemma RelayOnCourse(wish: Wish, sys: Link, m: H.Move)
    requires Inv(wish, sys) && OnCourse(wish, sys) && Enabled(wish, sys, m) && F.Relays(m)
    ensures OnCourse(wish, Next(wish, sys, m))
  {
    hide S.Next, S.Story, S.AtPc, Joined, ReplyV4, ClientInv, T.Limit, T.Stops;
    F.RelayMoves(sys.server, m.s.e);
  }

  // ---------------------------------------------------------------- no run is stuck

  /** The handshake can go on. */
  ghost predicate CanMove(wish: Wish, sys: Link) {
    exists m: H.Move :: F.Clean(m) && !F.Relays(m) && Enabled(wish, sys, m)
  }

  /** Whoever writes can go on, and so can whoever has something to read. */
  lemma Moves(wish: Wish, sys: Link)
    requires Inv(wish, sys)
    ensures sys.client.pc.WriteRequestV4? && sys.client.w != wish.Octets() ==> CanMove(wish, sys)
    ensures sys.client.pc.ReadReplyV4? && |sys.client.r| < 8 && sys.client.r != sys.server.w ==> CanMove(wish, sys)
    ensures sys.server.c.pc.Writing() || sys.server.c.pc.Dialling? ==> CanMove(wish, sys)
    ensures sys.server.c.pc.Reading() && sys.server.r != sys.client.w ==> CanMove(wish, sys)
  {
    hide S.Story, S.AtPc, Joined, T.Limit, RequestV4;
    var c, s := sys.client, sys.server;
    if c.pc.WriteRequestV4? && c.w != wish.Octets() {
      assert |c.w| < |wish.Octets()|;
      assert Enabled(wish, sys, H.ByClient(C.Out(1, Success)));
    }
    if c.pc.ReadReplyV4? && |c.r| < 8 && c.r != s.w {
      var data := [s.w[|c.r|]];
      assert c.r + data == s.w[..|c.r| + 1];
      assert Enabled(wish, sys, H.ByClient(C.Data(data, Success)));
    }
    if s.c.pc.Writing() { assert Enabled(wish, sys, H.ByServer(S.Out(1, Success))); }
    if s.c.pc.Dialling? { assert Enabled(wish, sys, H.ByServer(S.Dialled(false, UNSPECIFIED))); }
    if s.c.pc.Reading() && s.r != c.w {
      var data := [c.w[|s.r|]];
      assert s.r + data == c.w[..|s.r| + 1];
      assert Enabled(wish, sys, H.ByServer(S.Data(data, Success)));
    }
  }

  /** The client is complete when nothing goes on, and the server relays or is closed. */
  lemma NeverStuck(wish: Wish, sys: Link)
    requires wish.Valid() && Inv(wish, sys) && OnCourse(wish, sys) && Waiting(wish, sys.client)
    ensures CanMove(wish, sys) || (sys.client.pc.CompleteV4? && (sys.server.c.pc.Relaying? || sys.server.c.pc.Closed?))
  {
    hide S.Story, Joined, ReplyV4, RequestV4, T.Limit, T.Stops, CanMove, ParseConnectV4, ParseGreeting;
    var c, s := sys.client, sys.server;
    Moves(wish, sys);
    if !CanMove(wish, sys) {
      if s.c.pc.Reading() {
        Piece(wish, sys, []);
        assert c.pc.CompleteV4? ==> |S.Begun(s)| == 1;
        ReadEnds(wish, s.c.data);
      } else if !c.pc.CompleteV4? && !s.c.pc.Writing() && !s.c.pc.Dialling? {
        ReplyWritten(wish, sys);
      }
    }
  }

  lemma ReplyWritten(wish: Wish, sys: Link)
    requires Inv(wish, sys) && OnCourse(wish, sys) && (sys.server.c.pc.Relaying? || sys.server.c.pc.Closed?)
    ensures |sys.server.w| >= 8
  {
    hide S.Story, ReplyV4, RequestV4, T.Limit, T.Stops, ParseConnectV4, ParseGreeting, ClientInv, Joined;
    VerdictTold(sys.server);
    H.JoinedShort(sys.server.out);
  }

  /** A client between two steps has not finished its message or its read. */
  predicate Waiting(wish: Wish, c: Session) {
    && (c.pc.WriteRequestV4? ==> |c.w| < |wish.Octets()|) && (c.pc.ReadReplyV4? ==> |c.r| < 8)
  }

  lemma StillWaiting(wish: Wish, sys: Link, m: H.Move)
    requires sys.server.c.Valid() && ClientInv(wish, sys.client)
    requires Enabled(wish, sys, m) && F.Clean(m) && Waiting(wish, sys.client)
    ensures Waiting(wish, Next(wish, sys, m).client)
  {
    hide S.Next, RequestV4, AfterReadV4;
  }

  /** The whole request does not leave the server reading. */
  lemma ReadEnds(wish: Wish, got: seq<Octet>)
    requires wish.Valid() && got <= wish.Octets() && |got| < 258 && !T.Stops(T.GreetingCond, 258, Success, got)
    ensures got != wish.Octets()
  {
    R.V4StopsFromNine(wish.ep, wish.user);
    assert got == wish.Octets()[..|got|];
  }

  // ---------------------------------------------------------------- runs

  /** How many octets the first read of the server took, or none if it has not read yet. */
  function FirstRead(ms: seq<H.Move>): nat {
    if ms == [] then 0
    else if ms[0].ByServer? && ms[0].s.Data? then |ms[0].s.data|
    else FirstRead(ms[1..])
  }

  lemma NothingRead(wish: Wish, sys: Link)
    requires Inv(wish, sys) && OnCourse(wish, sys) && sys.server.r == []
    ensures sys.server.c.pc.ReadingGreeting? && sys.server.log == []
  {
    hide Joined, ReplyV4, ParseConnectV4, ParseGreeting, T.Limit, T.Stops, ClientInv;
    H.LogRead(sys.server);
  }

  lemma NoChoice(wish: Wish, sys: Link)
    requires OnCourse(wish, sys)
    ensures !sys.server.c.pc.WritingChoice?
  {
  }

  lemma AloneBy(wish: Wish, sys: Link, m: H.Move)
    requires wish.Valid() && Inv(wish, sys) && OnCourse(wish, sys) && Enabled(wish, sys, m) && F.Clean(m)
    ensures var s, s' := sys.server, Next(wish, sys, m).server;
            && (s'.r == [] <==> s.r == [] && !(m.ByServer? && m.s.Data?))
            && (Alone(s') <==> if s.r != [] then Alone(s) else m.ByServer? && m.s.Data? && |m.s.data| == 1)
            && s'.connected == (if m.ByServer? && m.s.Dialled? then m.s.ok else s.connected)
            && (F.Past(s') ==> F.Past(s) || F.Decides(m) || Alone(s'))
  {
    hide S.Story, S.AtPc, T.Limit, T.Stops, V.AfterRead, V.AfterWrite, ClientInv, OnCourse, Joined;
    var s := sys.server;
    if s.r == [] { NothingRead(wish, sys); }
    if m.ByServer? {
      if m.s.Data? {
        FirstOctets(wish, sys, m.s.data);
        ReadOnCourse(wish, sys, m.s.data);
      } else {
        hide S.Next;
        NoChoice(wish, sys);
        H.ServerGrows(s, m.s);
        F.OtherMoves(s, m.s);
      }
    }
  }

  lemma FirstOctets(wish: Wish, sys: Link, data: seq<Octet>)
    requires wish.Valid() && Inv(wish, sys) && OnCourse(wish, sys)
    requires Enabled(wish, sys, H.ByServer(S.Data(data, Success)))
    ensures var got := sys.server.c.data + data;
            && sys.server.c.data == sys.server.r && |sys.server.r| != 1 && sys.server.log == []
            && sys.server.c.pc.ReadingGreeting? && (|got| == 1 ==> T.Stops(T.GreetingCond, 258, Success, got))
  {
    hide S.Story, ReplyV4, RequestV4, ParseConnectV4, ParseGreeting, T.Limit, T.Stops;
    Piece(wish, sys, data);
    RequestStarts(wish);
    OneOctet();
    var got := sys.server.c.data + data;
    assert |got| == 1 ==> got == [4];
  }

  lemma {:induction false} RunOnCourse(wish: Wish, sys: Link, ms: seq<H.Move>)
    requires wish.Valid() && Inv(wish, sys) && OnCourse(wish, sys) && Waiting(wish, sys.client)
    requires CanDo(wish, sys, ms) && F.AllClean(ms)
    ensures var end := Do(wish, sys, ms);
            && Inv(wish, end) && OnCourse(wish, end) && Waiting(wish, end.client)
            && (Alone(end.server) <==> if sys.server.r != [] then Alone(sys.server) else FirstRead(ms) == 1)
            && end.server.connected == F.Accepted(ms, sys.server.connected)
            && (F.Past(end.server) ==> F.Past(sys.server) || (exists m <- ms :: F.Decides(m)) || Alone(end.server))
    decreases |ms|
  {
    hide Next, Enabled, F.Clean, OnCourse, Waiting, ClientInv, S.Story, S.AtPc, Joined;
    if ms == [] {
      if sys.server.r == [] { NothingRead(wish, sys); }
    } else {
      StepOnCourse(wish, sys, ms[0]);
      StepKeepsInv(wish, sys, ms[0]);
      StillWaiting(wish, sys, ms[0]);
      AloneBy(wish, sys, ms[0]);
      RunOnCourse(wish, Next(wish, sys, ms[0]), ms[1..]);
    }
  }

  /** The SOCKS4 handshake comes to its end, whatever the user id: when it can go no further, the client has been
      granted the request, and the server relays, exactly if the target has accepted the connection to the
      endpoint asked for; else the client has been told 91, and the server is closed. The server has dialled that
      endpoint unless its first read took the first octet alone; then it refuses. */
  lemma HandshakeCompletesV4(wish: Wish, ms: seq<H.Move>)
    requires wish.Valid() && CanDo(wish, Init(), ms) && F.AllClean(ms)
    ensures var end := Do(wish, Init(), ms);
            !CanMove(wish, end) ==>
              && end.client.pc == (if F.Accepted(ms, false) then CompleteV4(Socks(90), Garbled(end.server.local))
                                   else CompleteV4(Socks(91), UNSPECIFIED))
              && (F.Accepted(ms, false) <==> end.server.c.pc.Relaying?)
              && (!F.Accepted(ms, false) <==> end.server.c.pc.Closed?)
              && (if FirstRead(ms) == 1 then !F.Accepted(ms, false)
                  else end.server.c.target == wish.ep && exists m <- ms :: F.Decides(m))
  {
    hide CanMove, S.Inv;
    InitInv(wish);
    InitOnCourse(wish);
    RequestStarts(wish);
    RunOnCourse(wish, Init(), ms);
    var end := Do(wish, Init(), ms);
    NeverStuck(wish, end);
    if !CanMove(wish, end) { HasRead(wish, end); }
  }

  lemma HasRead(wish: Wish, sys: Link)
    requires Inv(wish, sys) && OnCourse(wish, sys) && sys.client.pc.CompleteV4?
    ensures sys.server.log != []
  {
    hide S.StoryV5, S.HonestV4, Joined, ClientInv;
  }
}
