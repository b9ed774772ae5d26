/** What the server does about each message, in octets: what ends each of its reads, and what it answers. */
module ServerAnswers {
  import opened Octets
  import opened Wire
  import opened RoundTrips
  import opened Formats
  import opened Transport
  import opened Server
  import opened ServerRuns

  // ---------------------------------------------------------------- when a read goes on

  /** A complete SOCKS4 request ends with the first NUL of its user id. */
  predicate CompleteV4(b: seq<Octet>) {
    && 9 <= |b| && b[0] == 4 && b[1] == 1 && b[|b| - 1] == 0 && 0 !in b[8..|b| - 1]
  }

  /** The first read goes on exactly as long as more octets can complete a greeting or a SOCKS4 request; but the
      first octet of the latter ends it at once. */
  lemma GreetingGoesOn(got: seq<Octet>)
    requires |got| <= 258
    ensures !Stops(GreetingCond, 258, Success, got) <==>
              got != [4] && exists more: seq<Octet> ::
                && more != [] && |got| + |more| <= 258
                && (ParseGreeting(got + more).Some? || CompleteV4(got + more))
  {
    if got != [4] {
      if !Stops(GreetingCond, 258, Success, got) {
        var more := GreetingMore(got);
      } else if more: seq<Octet> :| more != [] && |got| + |more| <= 258
                                    && (ParseGreeting(got + more).Some? || CompleteV4(got + more)) {
        GreetingFull(got, more);
      }
    }
  }

  /** Octets that complete what has been read. */
  lemma GreetingMore(got: seq<Octet>) returns (more: seq<Octet>)
    requires |got| <= 258 && got != [4] && !Stops(GreetingCond, 258, Success, got)
    ensures more != [] && |got| + |more| <= 258
    ensures ParseGreeting(got + more).Some? || CompleteV4(got + more)
  {
    if got == [] {
      more := [5, 0];
    } else if got[0] == 5 {
      var methods: nat := if |got| == 1 then 0 else got[1];
      more := if |got| == 1 then [0] else seq(2 + methods - |got|, _ => 0);
    } else if |got| < 9 {
      more := seq(8 - |got|, i => 1) + [0];
    } else {
      more := [0];
    }
  }

  lemma GreetingFull(got: seq<Octet>, more: seq<Octet>)
    requires more != [] && |got| + |more| <= 258
    requires got != [4] && Stops(GreetingCond, 258, Success, got)
    ensures ParseGreeting(got + more).None? && !CompleteV4(got + more)
  {
    var all := got + more;
    if 9 <= |got| && got[0] == 4 && got[1] == 1 {
      var buf := got + seq(258 - |got|, _ => 0);
      assert buf[8..|got|] == got[8..];
      if 0 in got[8..] {
        var i :| 0 <= i < |got| - 8 && got[8..][i] == 0;
        assert all[8..|all| - 1][i] == 0;
      }
    }
  }

  /** The user/pass read goes on to all of 513 octets, complete or not, unless the version is wrong. */
  lemma UserpassGoesOn(got: seq<Octet>)
    requires |got| <= 513
    ensures !Stops(UserpassCond, 513, Success, got) <==> |got| < 513 && (got == [] || got[0] == 1)
  {
  }

  /** The CONNECT read goes on exactly as long as more octets can complete a request. */
  lemma ConnectGoesOn(got: seq<Octet>)
    requires |got| <= 263
    ensures !Stops(ConnectCond, 263, Success, got) <==>
              exists more: seq<Octet> ::
                more != [] && |got| + |more| <= 263 && 4 < |got + more| && !ParseConnect(got + more).Refuse?
  {
    hide Stops, ParseConnect;
    if !Stops(ConnectCond, 263, Success, got) {
      var more := ConnectMore(got);
    } else if more: seq<Octet> :| more != [] && |got| + |more| <= 263 && 4 < |got + more|
                                  && !ParseConnect(got + more).Refuse? {
      ConnectFull(got, more);
    }
  }

  lemma ConnectMore(got: seq<Octet>) returns (more: seq<Octet>)
    requires |got| <= 263 && !Stops(ConnectCond, 263, Success, got)
    ensures more != [] && |got| + |more| <= 263 && 4 < |got + more| && !ParseConnect(got + more).Refuse?
  {
    var start := [5, 1, 0, 1];
    if |got| < 4 {
      more := start[|got|..] + seq(6, _ => 0);
      assert got + start[|got|..] == start;
      assert got + more == start + seq(6, _ => 0);
    } else {
      var name: nat := if |got| > 4 then got[4] else 0;
      var size := if got[3] == 1 then 10 else if got[3] == 4 then 22 else 7 + name;
      more := seq(size - |got|, _ => 0);
    }
  }

  lemma ConnectFull(got: seq<Octet>, more: seq<Octet>)
    requires |got| <= 263 && Stops(ConnectCond, 263, Success, got)
    requires more != [] && |got| + |more| <= 263 && 4 < |got + more|
    ensures ParseConnect(got + more).Refuse?
  {
  }

  // ---------------------------------------------------------------- what a read leads to

  /** One `read_some` that ends a read without error. */
  predicate Ends(s: Session, data: seq<Octet>) {
    && Inv(s) && Enabled(s, Data(data, Success))
    && Stops(s.c.pc.Cond(), s.c.pc.Size(), Success, s.c.data + data)
  }

  /** The server begins to write just this. */
  predicate Says(s: Session, msg: seq<Octet>) { s.c.pc.Writing() && s.pending == msg && s.c.data == msg && s.sent == 0 }

  /** The server closes without another octet. */
  predicate Hangs(s: Session) { s.c.pc.Closed? && s.pending == [] }

  /** The first read: a list of methods is answered with a choice from it, a SOCKS4 CONNECT request is dialled,
      anything else with VER 04 is rejected, and the rest is left unanswered. */
  lemma GreetingAnswered(s: Session, data: seq<Octet>)
    requires Ends(s, data) && s.c.pc.ReadingGreeting?
    ensures var got, s' := s.c.data + data, Next(s, Data(data, Success));
            if 2 <= |got| && got[0] == 5 && got[1] == |got| - 2 then
              Says(s', [5, if 2 in got[2..] then 2 else if 0 in got[2..] then 0 else 0xFF])
            else if 8 <= |got| && got[0] == 4 && got[1] == 1 then
              s'.c.pc == Dialling(true) && s'.c.target == V4(got[4..8], PortFrom(got[2], got[3])) && s'.pending == []
            else if 0 < |got| && got[0] == 4 then Says(s', [4, 91, 0, 0, 0, 0, 0, 0])
            else Hangs(s')
  {
    hide Joined, Limit, Story, Stops;
    ReadFacts(ReadingGreeting, s.c.data + data);
    ReplyV4Fields(91, UNSPECIFIED);
  }

  /** The user/pass read: a message that holds the lengths it announces is accepted, whatever it says. */
  lemma UserpassAnswered(s: Session, data: seq<Octet>)
    requires Ends(s, data) && s.c.pc.ReadingUserpass?
    ensures var got, s' := s.c.data + data, Next(s, Data(data, Success));
            if |got| == 513 && got[0] == 1 then Says(s', [1, 0]) else Hangs(s')
  {
    hide Joined, Limit, Story, Stops;
    var got := s.c.data + data;
    UserpassGoesOn(got);
    ReadFacts(ReadingUserpass, got);
  }

  /** The CONNECT read: the target of a request is dialled or looked up; all else is refused, for the first
      field that is wrong. */
  lemma ConnectAnswered(s: Session, data: seq<Octet>)
    requires Ends(s, data) && s.c.pc.ReadingConnect?
    ensures var got, s' := s.c.data + data, Next(s, Data(data, Success));
            && (forall ep: Endpoint :: got == Request(Ip(ep)) ==> s'.c.pc == Dialling(false) && s'.c.target == ep)
            && (forall name, port :: got == Request(Domain(name, port)) && |name| <= 255
                  ==> s'.c.pc == Resolving(name, port))
            && ((forall t | Expressible(t) :: got != Request(t)) ==>
                  0 < |got| && Says(s', [5, if got[0] != 5 then 2 else if |got| > 1 && got[1] != 1 then 7
                                            else if |got| < 3 || got[2] != 0 || |got| < 4 then 2 else 8,
                                         0, 1, 0, 0, 0, 0, 0, 0]))
  {
    hide Joined, Limit, Story, Stops, Request, ParseConnect, Reply;
    var got := s.c.data + data;
    ReadFacts(ReadingConnect, got);
    forall ep: Endpoint | got == Request(Ip(ep)) ensures ParseConnect(got) == Dial(ep) { RequestRoundTrip(Ip(ep)); }
    forall name: seq<Octet>, port: Port | got == Request(Domain(name, port)) && |name| <= 255
      ensures ParseConnect(got) == Resolve(name, port)
    {
      RequestRoundTrip(Domain(name, port));
    }
    RefusesElse(got);
    if ParseConnect(got).Refuse? { ReplyFields(ParseConnect(got).rep, UNSPECIFIED); }
  }

  /** The resolver's answer: the endpoint is dialled, or the host is unreachable. */
  lemma ResolverAnswered(s: Session, answer: Option<Endpoint>)
    requires Inv(s) && Enabled(s, Resolved(answer))
    ensures var s' := Next(s, Resolved(answer));
            match answer
            case None => Says(s', [5, 4, 0, 1, 0, 0, 0, 0, 0, 0])
            case Some(ep) => s'.c.pc == Dialling(false) && s'.c.target == ep
  {
    hide Joined, Limit, Story, AtPc, Reply;
    ReplyFields(4, UNSPECIFIED);
  }

  /** The target's answer, in the client's version. */
  lemma TargetAnswered(s: Session, ok: bool, bnd: Endpoint)
    requires Inv(s) && Enabled(s, Dialled(ok, bnd))
    ensures var s' := Next(s, Dialled(ok, bnd));
            && s'.connected == ok && s'.local == bnd
            && if s.c.pc.v4
               then Says(s', ReplyV4(if ok then 90 else 91, bnd))
                    && |s'.pending| == 8 && s'.pending[0] == 4 && s'.pending[1] == if ok then 90 else 91
               else Says(s', Reply(if ok then 0 else 4, bnd))
                    && |s'.pending| >= 10 && s'.pending[0] == 5 && s'.pending[1] == if ok then 0 else 4
  {
    hide Joined, Limit, Story, AtPc, Reply, ReplyV4;
    ReplyFields(if ok then 0 else 4, bnd);
    ReplyV4Fields(if ok then 90 else 91, bnd);
    if ok { assert Reply(0, bnd)[..3][0] == 5 && Reply(0, bnd)[..3][1] == 0; }
  }

  // ---------------------------------------------------------------- what a write leads to

  /** What the server does when a message is out: it reads what the choice demands, relays after a success, and
      closes after a refusal. */
  lemma SaidAll(s: Session, k: nat)
    requires Inv(s) && Enabled(s, Out(k, Success)) && s.sent + k == |s.pending|
    ensures var m, s' := s.pending, Next(s, Out(k, Success));
            && s'.out == s.out + [m]
            && (if m == [5, 0] || m == [1, 0] then s'.c.pc.ReadingConnect?
                else if m == [5, 2] then s'.c.pc.ReadingUserpass?
                else if |m| == 8 && m[1] == 90 then s'.c.pc.Relaying?
                else if |m| >= 10 && m[1] == 0 then s'.c.pc.Relaying?
                else s'.c.pc.Closed?)
  {
    hide Joined, Limit, Story, Stops;
    if s.c.pc == WritingReply(true) { ReplyV4Told(s); }
    if s.c.pc.WritingChoice? { ChoiceMade(s); }
  }

  /** An error ends the connection: it closes, begins no further message and does nothing more. */
  lemma ErrorCloses(s: Session, h: Happening)
    requires Inv(s) && Enabled(s, h) && ((h.Data? && h.ec.Failed()) || (h.Out? && h.ec.Failed()))
    ensures var s' := Next(s, h);
            && s'.c.pc.Closed? && Begun(s') == Begun(s) && s'.out == s.out
            && forall later :: !Enabled(s', later)
  {
    hide Joined, Limit, Story, AtPc;
  }
}
