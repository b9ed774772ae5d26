/** The server octet by octet: every run against any client, any resolver and any target. */
module ServerRuns {
  import opened Octets
  import opened Wire
  import opened Transport
  import opened Server
  import Relay

  /** A connection with its history: the messages read, those written completely, the one under way or cut
      off, the octets in both directions, and what the resolver and the target did. */
  datatype Session = Session(
    c: Conn, log: seq<seq<Octet>>, out: seq<seq<Octet>>, pending: seq<Octet>, sent: nat,
    r: seq<Octet>, w: seq<Octet>,
    answer: Option<Endpoint>, connected: bool, local: Endpoint, relay: Relay.Both)

  function Init(): (s: Session)
    ensures s.c.Valid()
  {
    ReadFacts(ReadingGreeting, []);
    Session(START, [], [], [], 0, [], [], None, false, UNSPECIFIED, Relay.Both(Relay.IDLE, Relay.IDLE))
  }

  datatype Happening =
    | Data(data: seq<Octet>, ec: ErrorCode)
    | Out(k: nat, ec: ErrorCode)
    | Resolved(answer: Option<Endpoint>)
    | Dialled(ok: bool, bnd: Endpoint)
    | Relayed(e: Relay.Event)

  predicate Enabled(s: Session, h: Happening) {
    match h
    case Data(data, ec) =>
      && s.c.pc.Reading() && |s.c.data| < s.c.pc.Size()
      && |data| <= Min(Limit(s.c.pc.Cond(), Success, s.c.data, s.c.pc.Size()), s.c.pc.Size() - |s.c.data|)
      && (data != [] || ec.Failed()) && (ec == Success || ec.Failed())
    case Out(k, ec) => s.c.pc.Writing() && s.c.n + k <= |s.c.data| && (k > 0 || ec.Failed())
    case Resolved(_) => s.c.pc.Resolving?
    case Dialled(_, _) => s.c.pc.Dialling?
    case Relayed(e) => s.c.pc.Relaying? && e.c.Enabled(if e.Up? then s.relay.up else s.relay.down)
  }

  /** Take over what a handler made of the connection; it may have begun a message. */
  function Enter(s: Session, c: Conn): Session {
    var s' := s.(c := c);
    if c.pc.Writing() then s'.(pending := c.data, sent := 0)
    else if c.pc.Relaying? then
      s'.(relay := Relay.Both(Relay.IDLE.(phase := Relay.Reading), Relay.IDLE.(phase := Relay.Reading)))
    else s'
  }

  /** What a completion of a relay loop moves over the client's side of the connection. */
  function Relays(s: Session, e: Relay.Event): Session
    requires Enabled(s, Relayed(e))
  {
    var relay := Relay.Step(s.relay, e);
    s.(relay := relay,
       r := s.r + relay.up.read[Min(|s.relay.up.read|, |relay.up.read|)..],
       w := s.w + relay.down.written[Min(|s.relay.down.written|, |relay.down.written|)..])
  }

  function Next(s: Session, h: Happening): Session
    requires s.c.Valid() && Enabled(s, h)
  {
    match h
    case Data(data, ec) =>
      var s' := s.(r := s.r + data);
      var got := s.c.data + data;
      if Stops(s.c.pc.Cond(), s.c.pc.Size(), ec, got) then Enter(s'.(log := s.log + [got]), OnData(s.c, data, ec))
      else s'.(c := OnData(s.c, data, ec))
    case Out(k, ec) =>
      var s' := s.(sent := s.sent + k, w := s.w + s.c.data[s.c.n..s.c.n + k]);
      if !ec.Failed() && s.c.n + k == |s.c.data|
      then Enter(s'.(out := s.out + [s.pending], pending := [], sent := 0), OnSent(s.c, k, ec))
      else s'.(c := OnSent(s.c, k, ec))
    case Resolved(answer) => Enter(s.(answer := answer), OnResolved(s.c, answer))
    case Dialled(ok, bnd) => Enter(s.(connected := ok, local := bnd), OnDialled(s.c, ok, bnd))
    case Relayed(e) => Relays(s, e)
  }

  // ---------------------------------------------------------------- the invariant

  /** The messages begun so far: complete ones, then the one under way or cut off. */
  function Begun(s: Session): seq<seq<Octet>> { if s.pending == [] then s.out else s.out + [s.pending] }

  /** How many messages the authentication takes in each direction. */
  function AuthSize(choice: Octet): nat { if choice == 2 then 2 else 1 }

  /** The endpoint dialled is the one requested, or the resolver's answer for exactly the requested domain. */
  predicate Agreed(q: seq<Octet>, answer: Option<Endpoint>, target: Endpoint) {
    && 4 < |q|
    && match ParseConnect(q)
       case Dial(ep) => target == ep
       case Resolve(_, _) => answer == Some(target)
       case Refuse(_) => false
  }

  /** A CONNECT reply: success is told only of a connection to the requested target, with its local endpoint. */
  predicate Honest(s: Session, q: seq<Octet>, reply: seq<Octet>) {
    && |reply| >= 2 && reply == Reply(reply[1], s.local)
    && (reply[1] == 0 ==> s.connected && Agreed(q, s.answer, s.c.target))
  }

  predicate HonestV4(s: Session, q: seq<Octet>, reply: seq<Octet>) {
    && |q| > 0 && q[0] == 4 && |reply| == 8 && reply == ReplyV4(reply[1], s.local)
    && (reply[1] == 90 ==> s.connected && ParseConnectV4(q) == Some(s.c.target))
  }

  /** What the messages begun say about the messages read. */
  predicate Story(s: Session) {
    var b := Begun(s);
    && |s.log| <= 3 && |b| <= |s.log|
    && (|b| == 0 || if |b[0]| == 8 then |b| == 1 && HonestV4(s, s.log[0], b[0]) else StoryV5(s, b))
  }

  predicate StoryV5(s: Session, b: seq<seq<Octet>>)
    requires 1 <= |b| <= |s.log|
  {
    && ParseGreeting(s.log[0]) == Some(s.c.choice) && b[0] == [5, s.c.choice]
    && (|b| > 1 ==> s.c.choice != 0xFF)
    && (|b| > 1 && s.c.choice == 2 ==> |s.log[1]| == 513 && b[1] == [1, 0])
    && |b| <= AuthSize(s.c.choice) + 1
    && (|b| == AuthSize(s.c.choice) + 1 ==> |s.log| == |b| && Honest(s, s.log[|b| - 1], b[|b| - 1]))
  }

  predicate AuthDone(s: Session) {
    && (s.c.choice == 0 || s.c.choice == 2) && |s.out| == AuthSize(s.c.choice) && |s.out[0]| == 2
  }

  predicate AtPc(s: Session) {
    match s.c.pc
    case ReadingGreeting => s.log == [] && s.out == []
    case WritingChoice => |s.log| == 1 && s.out == [] && s.c.data == [5, s.c.choice]
    case ReadingUserpass => |s.log| == 1 && |s.out| == 1 && |s.out[0]| == 2 && s.c.choice == 2
    case WritingStatus => |s.log| == 2 && |s.out| == 1 && |s.out[0]| == 2 && s.c.choice == 2 && s.c.data == [1, 0]
    case ReadingConnect => AuthDone(s) && |s.log| == |s.out|
    case Resolving(host, port) =>
      && AuthDone(s) && |s.log| == |s.out| + 1
      && 4 < |s.log[|s.out|]| && ParseConnect(s.log[|s.out|]) == Resolve(host, port)
    case Dialling(v4) =>
      if v4 then
        && |s.log| == 1 && s.out == [] && |s.log[0]| > 0 && s.log[0][0] == 4
        && ParseConnectV4(s.log[0]) == Some(s.c.target)
      else AuthDone(s) && |s.log| == |s.out| + 1 && Agreed(s.log[|s.out|], s.answer, s.c.target)
    case WritingReply(v4) =>
      |s.log| == |s.out| + 1 && if v4 then s.out == [] && HonestV4(s, s.log[0], s.c.data)
                                else AuthDone(s) && Honest(s, s.log[|s.out|], s.c.data)
    case Relaying =>
      && |s.log| == |s.out| > 0
      && (var reply := s.out[|s.out| - 1];
          if |s.out[0]| == 8 then |s.out| == 1 && reply[1] == 90
          else |s.out| == AuthSize(s.c.choice) + 1 && |reply| >= 10 && reply[1] == 0)
    case Closed => true
  }

  /** The octets in both directions are those of the messages, then those relayed. */
  predicate Counts(s: Session) {
    && s.c.Valid() && s.sent <= |s.pending|
    && (s.c.pc.Writing() ==> s.pending == s.c.data && s.sent == s.c.n)
    && (!s.c.pc.Writing() && !s.c.pc.Closed? ==> s.pending == [])
    && (!s.c.pc.Relaying? ==> s.relay.up.read == [] && s.relay.down.written == [])
    && s.r == Joined(s.log) + (if s.c.pc.Reading() then s.c.data else []) + s.relay.up.read
    && s.w == Joined(s.out) + s.pending[..s.sent] + s.relay.down.written
  }

  /** What every step of the server keeps. */
  predicate Inv(s: Session) { Counts(s) && Story(s) && AtPc(s) }

  lemma InitInv()
    ensures Inv(Init())
  {
  }

  // ---------------------------------------------------------------- counts

  lemma DataCounts(s: Session, data: seq<Octet>, ec: ErrorCode)
    requires Counts(s) && Enabled(s, Data(data, ec))
    ensures Counts(Next(s, Data(data, ec)))
  {
    hide AfterRead, Limit, Joined;
    var got := s.c.data + data;
    if Stops(s.c.pc.Cond(), s.c.pc.Size(), ec, got) {
      AfterReadShape(s.c.(data := got), ec);
      JoinedMore(s.log, got);
    }
  }

  lemma OutDoneCounts(s: Session, k: nat)
    requires Counts(s) && Enabled(s, Out(k, Success)) && s.sent + k == |s.pending|
    ensures Counts(Next(s, Out(k, Success)))
  {
    hide Limit, Joined, Stops, AfterWrite, Conn.Valid;
    Advance(s.w, Joined(s.out), s.pending, s.sent, s.sent + k);
    JoinedMore(s.out, s.pending);
    AfterWriteShape(s.c);
  }

  lemma OutCounts(s: Session, k: nat, ec: ErrorCode)
    requires Counts(s) && Enabled(s, Out(k, ec))
    ensures Counts(Next(s, Out(k, ec)))
  {
    hide Limit, Joined, Stops, AfterWrite;
    if !ec.Failed() && s.sent + k == |s.pending| {
      hide Counts;
      OutDoneCounts(s, k);
      assert Next(s, Out(k, ec)) == Next(s, Out(k, Success));
    } else {
      Advance(s.w, Joined(s.out), s.pending, s.sent, s.sent + k);
    }
  }

  lemma TargetCounts(s: Session, h: Happening)
    requires Counts(s) && Enabled(s, h) && (h.Resolved? || h.Dialled?)
    ensures Counts(Next(s, h))
  {
    hide Joined, Reply, ReplyV4, Limit;
  }

  lemma PipeGrows(p: Relay.Pipe, c: Relay.Completion)
    requires c.Enabled(p)
    ensures p.read <= c.Apply(p).read && p.written <= c.Apply(p).written
  {
  }

  lemma RelayCounts(s: Session, e: Relay.Event)
    requires Counts(s) && Enabled(s, Relayed(e))
    ensures Counts(Next(s, Relayed(e)))
  {
    hide Joined, Relay.OnRead, Relay.OnWritten;
    PipeGrows(if e.Up? then s.relay.up else s.relay.down, e.c);
    var relay := Relay.Step(s.relay, e);
    var was, now := s.relay.up.read, relay.up.read;
    assert now[..|was|] == was;
    Advance(s.r, Joined(s.log), now, |was|, |now|);
    was, now := s.relay.down.written, relay.down.written;
    assert now[..|was|] == was;
    Advance(s.w, Joined(s.out), now, |was|, |now|);
  }

  // ---------------------------------------------------------------- what was said

  lemma GreetingDataStory(s: Session, data: seq<Octet>, ec: ErrorCode)
    requires Inv(s) && Enabled(s, Data(data, ec)) && s.c.pc.ReadingGreeting?
    ensures var s' := Next(s, Data(data, ec)); Story(s') && AtPc(s')
  {
    hide Joined, Limit, ReplyV4, ParseGreeting, ParseConnectV4;
    AnyBound(91, s.local);
    var s' := Next(s, Data(data, ec));
    assert s'.c.pc.Writing() ==> Begun(s') == [s'.c.data];
  }

  /** A failure reply is the same whatever the bound endpoint; every reply shows its code. */
  lemma AnyBound(rep: Octet, bnd: Endpoint)
    ensures rep != 90 ==> ReplyV4(rep, UNSPECIFIED) == ReplyV4(rep, bnd)
    ensures rep != 0 ==> Reply(rep, UNSPECIFIED) == Reply(rep, bnd)
    ensures ReplyV4(rep, bnd)[1] == rep && Reply(rep, bnd)[1] == rep
  {
  }

  /** Only a full buffer ends the user/pass read with a version the parser accepts. */
  lemma UserpassFull(u: seq<Octet>)
    requires 0 < |u| <= 513 && Stops(UserpassCond, 513, Success, u) && ParseUserpassAt(u, 2).Some?
    ensures |u| == 513
  {
  }

  lemma UserpassDataStory(s: Session, data: seq<Octet>, ec: ErrorCode)
    requires Inv(s) && Enabled(s, Data(data, ec)) && s.c.pc.ReadingUserpass?
    ensures var s' := Next(s, Data(data, ec)); Story(s') && AtPc(s')
  {
    hide Joined, Limit, ParseGreeting, ParseUserpassAt;
    var got := s.c.data + data;
    var s' := Next(s, Data(data, ec));
    if s'.c.pc.WritingStatus? {
      ReadFacts(ReadingUserpass, got);
      UserpassFull(got);
    }
  }

  lemma ParsedShape(q: seq<Octet>)
    requires |q| > 0 && (|q| == 4 && q[0] == 5 && q[1] == 1 && q[2] == 0 ==> q[3] != 3)
    ensures match ParseConnect(q) case Refuse(rep) => rep != 0 case _ => 4 < |q|
  {
  }

  lemma ConnectDataStory(s: Session, data: seq<Octet>, ec: ErrorCode)
    requires Inv(s) && Enabled(s, Data(data, ec)) && s.c.pc.ReadingConnect?
    ensures var s' := Next(s, Data(data, ec)); Story(s') && AtPc(s')
  {
    hide Joined, Limit, ParseGreeting, Reply, ParseConnect;
    var got := s.c.data + data;
    if Stops(ConnectCond, 263, ec, got) {
      var s1 := s.(r := s.r + data, log := s.log + [got]);
      SameStory(s, s1.(log := s1.log[..|s.log|]));
      hide Story, AtPc, AfterRead, Stops;
      ConnectReadStory(s1, s.c.(data := got), ec);
    }
  }

  /** The handler that runs when the request was read. */
  lemma ConnectReadStory(s: Session, c: Conn, ec: ErrorCode)
    requires c.pc.ReadingConnect? && |c.data| <= 263 && Stops(ConnectCond, 263, ec, c.data)
    requires ec == Success || ec.Failed()
    requires |s.log| > 0 && s.log[|s.log| - 1] == c.data && s.pending == []
    requires Story(s.(log := s.log[..|s.log| - 1])) && AuthDone(s) && |s.log| == |s.out| + 1
    requires c.choice == s.c.choice && c.target == s.c.target
    ensures Story(Enter(s, AfterRead(c, ec))) && AtPc(Enter(s, AfterRead(c, ec)))
  {
    hide Joined, Limit, ParseGreeting, Reply, ParseConnect, Stops;
    if !ec.Failed() {
      ReadFacts(ReadingConnect, c.data);
      ParsedShape(c.data);
      if ParseConnect(c.data).Refuse? { AnyBound(ParseConnect(c.data).rep, s.local); }
    }
  }

  /** Nothing that the story is about changes. */
  lemma SameStory(s: Session, s': Session)
    requires Story(s) && Begun(s') == Begun(s) && s'.log == s.log && s'.c.choice == s.c.choice
    requires s'.c.target == s.c.target && s'.answer == s.answer && s'.connected == s.connected && s'.local == s.local
    ensures Story(s')
  {
  }

  lemma OutStory(s: Session, k: nat, ec: ErrorCode)
    requires Inv(s) && Enabled(s, Out(k, ec))
    ensures var s' := Next(s, Out(k, ec)); Story(s') && AtPc(s')
  {
    hide Joined, Limit, AtPc, Story, Stops;
    var s' := Next(s, Out(k, ec));
    if !ec.Failed() && s.c.n + k == |s.c.data| {
      OutDone(s, k);
      assert s' == Next(s, Out(k, Success));
    } else {
      OutPart(s, k, ec);
    }
    SameStory(s, s');
  }

  lemma OutPart(s: Session, k: nat, ec: ErrorCode)
    requires Inv(s) && Enabled(s, Out(k, ec)) && (ec.Failed() || s.c.n + k < |s.c.data|)
    ensures var s' := Next(s, Out(k, ec)); Begun(s') == Begun(s) && AtPc(s')
  {
    hide Joined, Limit, Stops, ParseGreeting, ParseConnect, ParseConnectV4, Reply, ReplyV4;
  }

  /** The message that has just gone out is the last of those begun. */
  predicate Delivers(s: Session, k: nat) {
    Counts(s) && Story(s) && AtPc(s) && Enabled(s, Out(k, Success)) && s.c.n + k == |s.c.data|
  }

  lemma OutDone(s: Session, k: nat)
    requires Delivers(s, k)
    ensures var s' := Next(s, Out(k, Success)); Begun(s') == Begun(s) && AtPc(s')
  {
    hide Story, AtPc, Next, Joined, Stops;
    if s.c.pc.WritingReply? { ReplyDone(s, k); } else { ExchangeDone(s, k); }
  }

  lemma ExchangeDone(s: Session, k: nat)
    requires Delivers(s, k) && !s.c.pc.WritingReply?
    ensures var s' := Next(s, Out(k, Success)); Begun(s') == Begun(s) && AtPc(s')
  {
    hide Joined, Limit, Stops, Conn.Valid, Honest, HonestV4, Agreed, Story;
    if s.c.pc.WritingChoice? { ChoiceMade(s); }
    assert (s.out + [s.c.data])[0] == if s.out == [] then s.c.data else s.out[0];
  }

  lemma ReplyDone(s: Session, k: nat)
    requires Delivers(s, k) && s.c.pc.WritingReply?
    ensures var s' := Next(s, Out(k, Success)); Begun(s') == Begun(s) && AtPc(s')
  {
    hide Joined, Limit, Stops, Conn.Valid, Agreed, ParseConnectV4, Story, ReplyV4, Reply;
    if s.c.pc.v4 { ReplyV4Told(s); }
    assert (s.out + [s.c.data])[0] == if s.out == [] then s.c.data else s.out[0];
  }

  lemma ChoiceMade(s: Session)
    requires Story(s) && AtPc(s) && s.c.pc.WritingChoice? && Begun(s) == [s.c.data]
    ensures s.c.choice == 0 || s.c.choice == 2 || s.c.choice == 0xFF
  {
  }

  lemma ReplyV4Told(s: Session)
    requires AtPc(s) && s.c.pc == WritingReply(true)
    ensures |s.c.data| == 8 && s.c.data[0] == 4
  {
  }

  lemma TargetStory(s: Session, h: Happening)
    requires Inv(s) && Enabled(s, h) && (h.Resolved? || h.Dialled?)
    ensures var s' := Next(s, h); Story(s') && AtPc(s')
  {
    hide Story, AtPc, Next;
    if h.Resolved? { ResolvedStory(s, h.answer); } else { DialledStory(s, h.ok, h.bnd); }
  }

  lemma ResolvedStory(s: Session, answer: Option<Endpoint>)
    requires Inv(s) && Enabled(s, Resolved(answer))
    ensures var s' := Next(s, Resolved(answer)); Story(s') && AtPc(s')
  {
    hide Joined, Limit, ParseGreeting, ParseConnect, Reply, HonestV4;
    AnyBound(4, s.local);
  }

  lemma DialledStory(s: Session, ok: bool, bnd: Endpoint)
    requires Inv(s) && Enabled(s, Dialled(ok, bnd))
    ensures var s' := Next(s, Dialled(ok, bnd)); Story(s') && AtPc(s')
  {
    hide Joined, Limit, ParseGreeting, ParseConnect, ParseConnectV4, Reply, ReplyV4, Agreed;
    AnyBound(if s.c.pc.v4 then if ok then 90 else 91 else if ok then 0 else 4, bnd);
  }

  lemma StepKeepsInv(s: Session, h: Happening)
    requires Inv(s) && Enabled(s, h)
    ensures Inv(Next(s, h))
  {
    hide Story, AtPc, Counts, Next;
    match h {
      case Data(data, ec) =>
        DataCounts(s, data, ec);
        match s.c.pc {
          case ReadingGreeting => GreetingDataStory(s, data, ec);
          case ReadingUserpass => UserpassDataStory(s, data, ec);
          case ReadingConnect => ConnectDataStory(s, data, ec);
        }
      case Out(k, ec) =>
        OutCounts(s, k, ec);
        OutStory(s, k, ec);
      case Relayed(e) =>
        RelayCounts(s, e);
        RelayStory(s, e);
      case _ =>
        TargetCounts(s, h);
        TargetStory(s, h);
    }
  }

  lemma RelayStory(s: Session, e: Relay.Event)
    requires Inv(s) && Enabled(s, Relayed(e))
    ensures var s' := Next(s, Relayed(e)); Story(s') && AtPc(s')
  {
    hide Joined, Limit, ParseGreeting, ParseConnect, ParseConnectV4, Reply, ReplyV4, Relay.Step;
  }

  // ---------------------------------------------------------------- runs

  lemma NextValid(s: Session, h: Happening)
    requires s.c.Valid() && Enabled(s, h)
    ensures Next(s, h).c.Valid()
  {
    hide Limit, AfterRead, AfterWrite, Reply, ReplyV4;
    match h {
      case Data(data, ec) =>
        var got := s.c.data + data;
        if Stops(s.c.pc.Cond(), s.c.pc.Size(), ec, got) { AfterReadShape(s.c.(data := got), ec); }
      case Out(k, ec) => AfterWriteShape(s.c);
      case _ =>
    }
  }

  predicate CanDo(s: Session, hs: seq<Happening>)
    requires s.c.Valid()
    decreases |hs|
  {
    hs == [] || (Enabled(s, hs[0]) && (NextValid(s, hs[0]); CanDo(Next(s, hs[0]), hs[1..])))
  }

  function Do(s: Session, hs: seq<Happening>): Session
    requires s.c.Valid() && CanDo(s, hs)
    decreases |hs|
  {
    if hs == [] then s else NextValid(s, hs[0]); Do(Next(s, hs[0]), hs[1..])
  }

  lemma {:induction false} RunKeepsInv(s: Session, hs: seq<Happening>)
    requires Inv(s) && CanDo(s, hs)
    ensures Inv(Do(s, hs))
    decreases |hs|
  {
    if hs != [] {
      StepKeepsInv(s, hs[0]);
      RunKeepsInv(Next(s, hs[0]), hs[1..]);
    }
  }

  // ---------------------------------------------------------------- safety of every run

  /** A CONNECT reply of either version; the other messages of the server have two octets. */
  predicate IsReply(m: seq<Octet>) { |m| >= 8 }

  /** The code for success: 90 in an eight-octet SOCKS4 reply, 0 in a SOCKS5 reply. */
  predicate Grants(m: seq<Octet>)
    requires IsReply(m)
  {
    m[1] == if |m| == 8 then 90 else 0
  }

  predicate Safe(s: Session) {
    var b := Begun(s);
    // At most one CONNECT reply is begun, and it is the last message.
    && |b| <= 3 && s.out <= b
    && (forall i | 0 <= i < |b| :: IsReply(b[i]) ==> i == |b| - 1)
    // Success is told only of a connection to the requested target.
    && (b != [] && IsReply(b[|b| - 1]) && Grants(b[|b| - 1]) ==>
          && s.connected && 0 < |s.log|
          && if |b[|b| - 1]| == 8 then 0 < |s.log[0]| && ParseConnectV4(s.log[0]) == Some(s.c.target)
             else Agreed(s.log[|s.log| - 1], s.answer, s.c.target))
    // Relaying goes on only after a success reply was written whole.
    && (s.c.pc.Relaying? ==> s.out != [] && IsReply(s.out[|s.out| - 1]) && Grants(s.out[|s.out| - 1]))
    // A failure reply written whole leaves the connection closed.
    && (s.out != [] && IsReply(s.out[|s.out| - 1]) && !Grants(s.out[|s.out| - 1]) ==> s.c.pc.Closed?)
    // No SOCKS5 request is read before the exchange for the chosen method is complete.
    && (s.c.pc.ReadingConnect? ==> s.out == [[5, 0]] || s.out == [[5, 2], [1, 0]])
  }

  lemma InvIsSafe(s: Session)
    requires Inv(s)
    ensures Safe(s)
  {
    hide Joined, Limit, ParseConnect, ParseConnectV4, Reply, ReplyV4, ParseGreeting, Stops;
  }

  /** Server run safety: every run against any client, resolver and target, with errors at any step, stays
      safe; and a closed connection does nothing more. */
  lemma ServerRunSafety(hs: seq<Happening>)
    requires CanDo(Init(), hs)
    ensures Safe(Do(Init(), hs))
    ensures Do(Init(), hs).c.pc.Closed? ==> forall h :: !Enabled(Do(Init(), hs), h)
  {
    hide Safe;
    InitInv();
    RunKeepsInv(Init(), hs);
    InvIsSafe(Do(Init(), hs));
  }
}
