/** A run without faults in which the server relays before the client has read the reply, and the client takes
    in what is not its own. */
module Overtaken {
  import opened Octets
  import opened Wire
  import opened RoundTrips
  import opened Client
  import opened ClientTheorems
  import opened Handshake
  import opened FaultFree
  import C = ClientRuns
  import S = ServerRuns
  import T = Transport
  import V = Server
  import Y = Relay

  const CFG := Config(NoAuth, Ip(V4([127, 0, 0, 1], 80)))
  const BOUND: Endpoint := V4([127, 0, 0, 1], 1080)
  const HELLO: seq<Octet> := [5, 1, 0]
  const ASK: seq<Octet> := [5, 1, 0, 1, 127, 0, 0, 1, 0, 80]
  const TELL: seq<Octet> := [5, 0, 0, 1, 127, 0, 0, 1, 4, 56]

  lemma Messages()
    ensures CFG.Valid() && Greeting(CFG.opt) == HELLO && Request(CFG.target) == ASK && Reply(0, BOUND) == TELL
  {
  }

  // ---------------------------------------------------------------- the client's steps

  const GREETED := C.Session(ReadChoice, [], [], 0, [], HELLO, [HELLO])
  const CHOSEN := C.Session(WriteRequest, [], ASK, 0, [5, 0], HELLO, [HELLO])
  const ASKED := C.Session(ReadReply, [], [], 0, [5, 0], HELLO + ASK, [HELLO, ASK])

  function Overtook(more: seq<Octet>): C.Session {
    var c := ASKED.(r := [5, 0] + (TELL + more));
    if |more| < 12 then c.(got := TELL + more) else c.(pc := Complete(BAD_REPLY_SIZE, UNSPECIFIED))
  }

  predicate ClientStep(form: Form, a: C.Session, h: C.Happening, b: C.Session) {
    a.pc.Fits(CFG) && C.Enabled(a, h) && C.Next(form, CFG, a, h) == b
  }

  lemma ClientAsks(form: Form)
    ensures CFG.Valid() && ClientStep(form, C.Init(CFG), C.Out(3, Success), GREETED)
    ensures ClientStep(form, CHOSEN, C.Out(10, Success), ASKED)
  {
    hide T.Stops, T.Limit, AfterRead, Greeting, Request;
    Messages();
    assert HELLO[0..3] == HELLO && ASK[0..10] == ASK && [] + HELLO == HELLO;
    assert [] + [HELLO] == [HELLO] && [HELLO] + [ASK] == [HELLO, ASK];
  }

  lemma ClientChooses(form: Form)
    ensures CFG.Valid() && ClientStep(form, GREETED, C.Data([5, 0], Success), CHOSEN)
  {
    hide Greeting, Request;
    Messages();
    assert [] + [5, 0] == [5, 0];
  }

  lemma ClientTakes(form: Form, more: seq<Octet>)
    requires 1 <= |more| <= 12
    ensures ClientStep(form, ASKED, C.Data(TELL + more, Success), Overtook(more))
  {
    hide T.Stops, T.Limit, Greeting, Request;
    Messages();
    ReplyGoesOn([]);
    ReplyGoesOn(TELL + more);
    assert [] + (TELL + more) == TELL + more;
  }

  // ---------------------------------------------------------------- the server's steps

  const READS := Y.IDLE.(phase := Y.Reading)

  const HEARD := S.Init().(c := V.Conn(V.WritingChoice, [5, 0], 0, 0, UNSPECIFIED),
                           log := [HELLO], pending := [5, 0], r := HELLO)
  const CHOSE := HEARD.(c := V.Conn(V.ReadingConnect, [], 0, 0, UNSPECIFIED),
                        out := [[5, 0]], pending := [], w := [5, 0])
  const DIALS := CHOSE.(c := V.Conn(V.Dialling(false), ASK, 0, 0, CFG.target.ep), log := [HELLO, ASK], r := HELLO + ASK)
  const CONNECTED := DIALS.(c := V.Conn(V.WritingReply(false), TELL, 0, 0, CFG.target.ep), pending := TELL,
                            connected := true, local := BOUND)
  const TOLD := CONNECTED.(c := V.Conn(V.Relaying, [], 0, 0, CFG.target.ep), out := [[5, 0], TELL], pending := [],
                           w := [5, 0] + TELL, relay := Y.Both(READS, READS))

  /** With octets of the target at hand, and with these handed on. */
  function Holds(more: seq<Octet>): S.Session { TOLD.(relay := TOLD.relay.(down := Y.Pipe(Y.Writing, more, more, []))) }

  function Relayed(more: seq<Octet>): S.Session {
    TOLD.(relay := TOLD.relay.(down := Y.Pipe(Y.Reading, [], more, more)), w := [5, 0] + TELL + more)
  }

  predicate ServerStep(a: S.Session, h: S.Happening, b: S.Session) {
    a.c.Valid() && S.Enabled(a, h) && S.Next(a, h) == b
  }

  predicate Limits(pc: V.Pc, n: nat)
    requires pc.Reading()
  {
    T.Limit(pc.Cond(), Success, [], pc.Size()) == n
  }

  lemma ServerHears()
    ensures ServerStep(S.Init(), S.Data(HELLO, Success), HEARD)
  {
    hide T.Stops, ParseGreeting;
    assert Limits(V.ReadingGreeting, 258);
    assert MethodList([0]) == HELLO == HELLO[..3];
    T.GreetingStops([0], 3);
    ChoiceFromList([0]);
    assert [] + HELLO == HELLO;
    assert [] + [HELLO] == [HELLO];
  }

  lemma ServerChooses()
    ensures ServerStep(HEARD, S.Out(2, Success), CHOSE)
  {
    hide T.Limit;
    assert [5, 0][0..2] == [5, 0];
  }

  lemma ServerReads()
    ensures ServerStep(CHOSE, S.Data(ASK, Success), DIALS)
  {
    hide T.Stops, ParseConnect, Request;
    Messages();
    T.RequestStops(CFG.target, 10);
    T.RequestStops(CFG.target, 0);
    RequestRoundTrip(CFG.target);
    assert ASK[..10] == ASK && [] + ASK == ASK;
    assert Limits(V.ReadingConnect, 263);
    assert [HELLO] + [ASK] == [HELLO, ASK];
  }

  lemma ServerConnects()
    ensures ServerStep(DIALS, S.Dialled(true, BOUND), CONNECTED)
    ensures ServerStep(CONNECTED, S.Out(10, Success), TOLD)
  {
    hide T.Stops, T.Limit, Reply, ReplyV4;
    Messages();
    assert TELL[0..10] == TELL;
    assert [[5, 0]] + [TELL] == [[5, 0], TELL];
  }

  lemma ServerRelays(more: seq<Octet>)
    requires |more| <= 1024
    ensures ServerStep(TOLD, S.Relayed(Y.Down(Y.Read(more, Success))), Holds(more))
    ensures ServerStep(Holds(more), S.Relayed(Y.Down(Y.Wrote(|more|, Success))), Relayed(more))
  {
  }

  // ---------------------------------------------------------------- the run

  lemma {:induction false} Onward(form: Form, sys: Link, ms: seq<Move>, m: Move)
    requires sys.client.pc.Fits(CFG) && sys.server.c.Valid() && CanDo(form, CFG, sys, ms) && AllClean(ms) && Clean(m)
    requires var end := Do(form, CFG, sys, ms); end.client.pc.Fits(CFG) && end.server.c.Valid() && Enabled(end, m)
    ensures AllClean(ms + [m]) && CanDo(form, CFG, sys, ms + [m])
    ensures Do(form, CFG, sys, ms + [m]) == Next(form, CFG, Do(form, CFG, sys, ms), m)
    decreases |ms|
  {
    hide Next, Enabled, Clean;
    if ms == [] {
      assert [m][1..] == [];
      NextFits(form, CFG, sys, m);
      assert CanDo(form, CFG, Next(form, CFG, sys, m), []);
    } else {
      NextFits(form, CFG, sys, ms[0]);
      assert (ms + [m])[1..] == ms[1..] + [m];
      Onward(form, Next(form, CFG, sys, ms[0]), ms[1..], m);
    }
  }

  /** A run that leads to the given state. */
  ghost predicate Reached(form: Form, sys: Link) {
    CFG.Valid() &&
    exists ms :: CanDo(form, CFG, Init(CFG), ms) && AllClean(ms) && Do(form, CFG, Init(CFG), ms) == sys
  }

  lemma Started(form: Form)
    ensures CFG.Valid() && Reached(form, Init(CFG))
  {
    Messages();
    assert CanDo(form, CFG, Init(CFG), []) && AllClean([]) && Do(form, CFG, Init(CFG), []) == Init(CFG);
  }

  lemma ClientGoesOn(form: Form, c: C.Session, s: S.Session, h: C.Happening, c': C.Session)
    requires Reached(form, Link(c, s)) && ClientStep(form, c, h, c') && s.c.Valid() && Clean(ByClient(h))
    requires h.Data? ==> c.r + h.data <= s.w
    ensures Reached(form, Link(c', s))
  {
    hide C.Next, C.Enabled, S.Next, S.Enabled, Clean;
    var ms :| CanDo(form, CFG, Init(CFG), ms) && AllClean(ms) && Do(form, CFG, Init(CFG), ms) == Link(c, s);
    Onward(form, Init(CFG), ms, ByClient(h));
  }

  lemma ServerGoesOn(form: Form, c: C.Session, s: S.Session, h: S.Happening, s': S.Session)
    requires Reached(form, Link(c, s)) && ServerStep(s, h, s') && c.pc.Fits(CFG) && Clean(ByServer(h))
    requires h.Data? ==> s.r + h.data <= c.w
    requires h.Relayed? ==> h.e.Down?
    ensures Reached(form, Link(c, s'))
  {
    hide C.Next, C.Enabled, S.Next, S.Enabled, Clean;
    var ms :| CanDo(form, CFG, Init(CFG), ms) && AllClean(ms) && Do(form, CFG, Init(CFG), ms) == Link(c, s);
    Onward(form, Init(CFG), ms, ByServer(h));
  }

  /** The server has connected and told so, and relays `more` before the client reads. The client then has one
      to eleven octets too many and waits, or twelve and refuses the reply. */
  lemma ReplyOvertaken(form: Form, more: seq<Octet>)
    requires 1 <= |more| <= 12
    ensures CFG.Valid() && exists ms ::
              && CanDo(form, CFG, Init(CFG), ms) && AllClean(ms)
              && var end := Do(form, CFG, Init(CFG), ms);
                 !CanMove(end) && if |more| < 12 then Waits(CFG, end) else Overran(CFG, end)
  {
    hide CanDo, Do, CanMove, C.Next, S.Next, C.Enabled, S.Enabled, ClientStep, ServerStep, Inv, OnCourse;
    BothMove(form, more);
    var ms :| CanDo(form, CFG, Init(CFG), ms) && AllClean(ms)
              && Do(form, CFG, Init(CFG), ms) == Link(Overtook(more), Relayed(more));
    InitInv(CFG);
    InitOnCourse(CFG);
    RunOnCourse(form, CFG, Init(CFG), ms);
    Ends(more);
    Standstill(CFG, Link(Overtook(more), Relayed(more)));
  }

  lemma Ends(more: seq<Octet>)
    requires 1 <= |more| <= 12 && CFG.Valid()
    ensures var end := Link(Overtook(more), Relayed(more));
            if |more| < 12 then Waits(CFG, end) else Overran(CFG, end)
  {
    hide Reply;
    Messages();
    assert [5, 0] + (TELL + more) == [5, 0] + TELL + more;
  }

  /** In this order, each as soon as it can. */
  lemma BothMove(form: Form, more: seq<Octet>)
    requires 1 <= |more| <= 12
    ensures Reached(form, Link(Overtook(more), Relayed(more)))
  {
    hide Reached, ClientStep, ServerStep, CanDo, Do;
    ClientAsks(form);
    ServerTold(form);
    ServerRelays(more);
    ServerGoesOn(form, ASKED, TOLD, S.Relayed(Y.Down(Y.Read(more, Success))), Holds(more));
    ServerGoesOn(form, ASKED, Holds(more), S.Relayed(Y.Down(Y.Wrote(|more|, Success))), Relayed(more));
    ClientTakes(form, more);
    ClientGoesOn(form, ASKED, Relayed(more), C.Data(TELL + more, Success), Overtook(more));
  }

  lemma ServerTold(form: Form)
    ensures Reached(form, Link(ASKED, TOLD))
  {
    hide Reached, ClientStep, ServerStep, CanDo, Do;
    ClientAsked(form);
    ServerReads();
    ServerGoesOn(form, ASKED, CHOSE, S.Data(ASK, Success), DIALS);
    ServerConnects();
    ServerGoesOn(form, ASKED, DIALS, S.Dialled(true, BOUND), CONNECTED);
    ServerGoesOn(form, ASKED, CONNECTED, S.Out(10, Success), TOLD);
  }

  lemma ClientAsked(form: Form)
    ensures CFG.Valid() && Reached(form, Link(ASKED, CHOSE))
  {
    hide Reached, ClientStep, ServerStep, CanDo, Do;
    Started(form);
    ClientAsks(form);
    ClientGoesOn(form, C.Init(CFG), S.Init(), C.Out(3, Success), GREETED);
    ServerHears();
    ServerGoesOn(form, GREETED, S.Init(), S.Data(HELLO, Success), HEARD);
    ServerChooses();
    ServerGoesOn(form, GREETED, HEARD, S.Out(2, Success), CHOSE);
    ClientChooses(form);
    ClientGoesOn(form, GREETED, CHOSE, C.Data([5, 0], Success), CHOSEN);
    ClientGoesOn(form, CHOSEN, CHOSE, C.Out(10, Success), ASKED);
  }
}
