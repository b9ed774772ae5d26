/** The client octet by octet: every run over a stream that delivers and takes what it likes. */
module ClientRuns {
  import opened Octets
  import opened Wire
  import opened Transport
  import opened Client
  import opened ClientTheorems

  /** The client between two `read_some` or `write_some` operations: what the current read has received,
      what of the current message is out, and the whole history in both directions. */
  datatype Session = Session(
    pc: Pc, got: seq<Octet>, pending: seq<Octet>, sent: nat,
    r: seq<Octet>, w: seq<Octet>, out: seq<seq<Octet>>)

  function Init(cfg: Config): Session
    requires cfg.Valid()
  {
    Session(WriteGreeting, [], Greeting(cfg.opt), 0, [], [], [])
  }

  datatype Happening = Data(data: seq<Octet>, ec: ErrorCode) | Out(k: nat, ec: ErrorCode)

  /** What the stream may do next: deliver at most what the composed read allows, or an error, or both; or
      take a piece of the message, or fail. */
  predicate Enabled(s: Session, h: Happening) {
    match h
    case Data(data, ec) =>
      && s.pc.Reading() && |s.got| < s.pc.Size()
      && |data| <= Min(Limit(s.pc.Cond(), Success, s.got, s.pc.Size()), s.pc.Size() - |s.got|)
      && (data != [] || ec.Failed()) && (ec == Success || ec.Failed())
    case Out(k, ec) => s.pc.Writing() && s.sent + k <= |s.pending| && (k > 0 || ec.Failed())
  }

  /** Go on at `pc`: a new message to write, or a new read. */
  function Enter(cfg: Config, s: Session, pc: Pc): Session
    requires pc.Fits(cfg)
  {
    s.(pc := pc, got := [], sent := 0, pending := if pc.Writing() then Message(cfg, pc) else [])
  }

  function Next(form: Form, cfg: Config, s: Session, h: Happening): (s': Session)
    requires s.pc.Fits(cfg) && Enabled(s, h)
    ensures s'.pc.Fits(cfg)
  {
    match h
    case Data(data, ec) =>
      var s' := s.(got := s.got + data, r := s.r + data);
      if Stops(s.pc.Cond(), s.pc.Size(), ec, s'.got) then Enter(cfg, s', AfterRead(form, cfg, s.pc, ec, s'.got))
      else s'
    case Out(k, ec) =>
      var s' := s.(sent := s.sent + k, w := s.w + s.pending[s.sent..s.sent + k]);
      if ec.Failed() then s'.(pc := AfterWrite(s.pc, ec))
      else if s'.sent == |s.pending| then Enter(cfg, s'.(out := s.out + [s.pending]), AfterWrite(s.pc, Success))
      else s'
  }

  predicate CanDo(form: Form, cfg: Config, s: Session, hs: seq<Happening>)
    requires s.pc.Fits(cfg)
    decreases |hs|
  {
    hs == [] || (Enabled(s, hs[0]) && CanDo(form, cfg, Next(form, cfg, s, hs[0]), hs[1..]))
  }

  function Do(form: Form, cfg: Config, s: Session, hs: seq<Happening>): Session
    requires s.pc.Fits(cfg) && CanDo(form, cfg, s, hs)
    decreases |hs|
  {
    if hs == [] then s else Do(form, cfg, Next(form, cfg, s, hs[0]), hs[1..])
  }

  // ---------------------------------------------------------------- the invariant

  /** The messages begun so far: complete ones, then the one under way or cut off. */
  function Begun(s: Session): seq<seq<Octet>> { if s.pending == [] then s.out else s.out + [s.pending] }

  /** How many octets received decide on the preamble. */
  function PreambleSize(r: seq<Octet>): nat { if |r| >= 2 && r[1] == 2 then 4 else 2 }

  function PreambleOf(r: seq<Octet>): seq<Octet> { r[..Min(PreambleSize(r), |r|)] }

  /** Authentication gating: which messages may have been begun, given what was received. Credentials need a
      choice of 02, the CONNECT request needs a choice of 00 or an accepting user/pass reply. */
  predicate Gated(cfg: Config, s: Session)
    requires cfg.Valid()
  {
    var b := Begun(s);
    || b == []
    || b == [Greeting(cfg.opt)]
    || (cfg.opt.Userpass? && b == [Greeting(cfg.opt), UserpassRequest(cfg.opt)] && s.r[..Min(2, |s.r|)] == [5, 2])
    || (Preamble(cfg.opt, PreambleOf(s.r)) && b == Script(cfg, PreambleOf(s.r)))
  }

  predicate AtPc(cfg: Config, s: Session)
    requires cfg.Valid()
  {
    match s.pc
    case WriteGreeting => s.out == [] && s.pending == Greeting(cfg.opt) && s.r == []
    case ReadChoice => s.out == [Greeting(cfg.opt)] && s.r == s.got && |s.got| < 2
    case WriteUserpass =>
      && cfg.opt.Userpass? && s.out == [Greeting(cfg.opt)] && s.pending == UserpassRequest(cfg.opt)
      && s.r == [5, 2]
    case ReadUserpass =>
      && cfg.opt.Userpass? && s.out == [Greeting(cfg.opt), UserpassRequest(cfg.opt)]
      && s.r == [5, 2] + s.got && |s.got| < 2
    case WriteRequest =>
      && Preamble(cfg.opt, s.r) && s.pending == Request(cfg.target)
      && s.out + [s.pending] == Script(cfg, s.r)
    case ReadReply =>
      var pre := PreambleOf(s.r);
      && Preamble(cfg.opt, pre) && s.out == Script(cfg, pre) && s.r == pre + s.got
      && |s.got| < 22 && !Stops(ReplyCond, 22, Success, s.got)
    case Complete(ec, ep) =>
      var pre := PreambleOf(s.r);
      if ec.Failed() then ep == UNSPECIFIED
      else
        && Preamble(cfg.opt, pre) && s.out == Script(cfg, pre) && s.pending == []
        && Granted(s.r[|pre|..]) && ep == GrantedEndpoint(s.r[|pre|..])
  }

  /** What every step of the client keeps. */
  predicate Inv(cfg: Config, s: Session) {
    && s.pc.Fits(cfg) && s.sent <= |s.pending|
    && (s.pc.Writing() ==> s.sent < |s.pending|) && (s.pc.Reading() ==> s.pending == [])
    && s.w == Joined(s.out) + s.pending[..s.sent]
    && Gated(cfg, s) && AtPc(cfg, s)
  }

  lemma InitInv(cfg: Config)
    requires cfg.Valid()
    ensures Inv(cfg, Init(cfg))
  {
  }

  /** A message that went out completely. */
  lemma SentKeepsInv(form: Form, cfg: Config, s: Session, k: nat)
    requires Inv(cfg, s) && Enabled(s, Out(k, Success)) && s.sent + k == |s.pending|
    ensures Inv(cfg, Next(form, cfg, s, Out(k, Success)))
  {
    hide Greeting, UserpassRequest, Request, Granted, Limit, Gated, Joined;
    var s' := Next(form, cfg, s, Out(k, Success));
    Advance(s.w, Joined(s.out), s.pending, s.sent, s.sent + k);
    JoinedMore(s.out, s.pending);
    assert Begun(s') == Begun(s);
    SameGate(cfg, s, s');
    if s.pc.WriteRequest? {
      assert PreambleOf(s.r) == s.r;
      assert s'.r == PreambleOf(s.r) + [];
      ReadStarts();
    }
  }

  lemma ReadStarts()
    ensures !Stops(ReplyCond, 22, Success, [])
  {
  }

  lemma SameGate(cfg: Config, s: Session, s': Session)
    requires cfg.Valid() && Gated(cfg, s) && Begun(s) == Begun(s') && s.r == s'.r
    ensures Gated(cfg, s')
  {
  }

  lemma OutKeepsInv(form: Form, cfg: Config, s: Session, k: nat, ec: ErrorCode)
    requires Inv(cfg, s) && Enabled(s, Out(k, ec))
    ensures Inv(cfg, Next(form, cfg, s, Out(k, ec)))
  {
    hide Greeting, UserpassRequest, Request, Granted, Limit, Gated, Joined;
    var s' := Next(form, cfg, s, Out(k, ec));
    if !ec.Failed() && s.sent + k == |s.pending| {
      SentKeepsInv(form, cfg, s, k);
      assert s' == Next(form, cfg, s, Out(k, Success));
    } else {
      Advance(s.w, Joined(s.out), s.pending, s.sent, s.sent + k);
      SameGate(cfg, s, s');
    }
  }

  lemma ChoiceDataKeepsInv(form: Form, cfg: Config, s: Session, data: seq<Octet>, ec: ErrorCode)
    requires Inv(cfg, s) && Enabled(s, Data(data, ec)) && s.pc.ReadChoice?
    ensures Inv(cfg, Next(form, cfg, s, Data(data, ec)))
  {
  }

  lemma StatusRead(form: Form, cfg: Config, ec: ErrorCode, got: seq<Octet>)
    requires ReadUserpass.Fits(cfg)
    ensures var pc := AfterRead(form, cfg, ReadUserpass, ec, got);
            (pc == WriteRequest && got == [1, 0]) || (pc.Complete? && pc.ec.Failed() && pc.ep == UNSPECIFIED)
  {
  }

  lemma UserpassDataKeepsInv(form: Form, cfg: Config, s: Session, data: seq<Octet>, ec: ErrorCode)
    requires Inv(cfg, s) && Enabled(s, Data(data, ec)) && s.pc.ReadUserpass?
    ensures Inv(cfg, Next(form, cfg, s, Data(data, ec)))
  {
    hide Greeting, UserpassRequest, Request, Limit, Joined, Granted, AfterRead;
    var got := s.got + data;
    var s' := Next(form, cfg, s, Data(data, ec));
    StatusRead(form, cfg, ec, got);
    assert s'.r == [5, 2] + got;
    if s'.pc.WriteRequest? {
      assert s'.r == [5, 2, 1, 0] == PreambleOf(s'.r);
      assert Begun(s') == Script(cfg, s'.r);
    } else {
      assert s'.r[..2] == [5, 2];
    }
  }

  lemma ReplyDataKeepsInv(form: Form, cfg: Config, s: Session, data: seq<Octet>, ec: ErrorCode)
    requires Inv(cfg, s) && Enabled(s, Data(data, ec)) && s.pc.ReadReply?
    ensures Inv(cfg, Next(form, cfg, s, Data(data, ec)))
  {
    hide Greeting, UserpassRequest, Request, Limit, DecodeReply, Granted;
    var got := s.got + data;
    var pre := PreambleOf(s.r);
    assert PreambleOf(s.r + data) == pre && (s.r + data)[|pre|..] == got;
    if |got| == 10 || |got| == 22 { DecodeReplyGrants(got); }
  }

  lemma DataKeepsInv(form: Form, cfg: Config, s: Session, data: seq<Octet>, ec: ErrorCode)
    requires Inv(cfg, s) && Enabled(s, Data(data, ec))
    ensures Inv(cfg, Next(form, cfg, s, Data(data, ec)))
  {
    hide Inv, Next;
    match s.pc {
      case ReadChoice => ChoiceDataKeepsInv(form, cfg, s, data, ec);
      case ReadUserpass => UserpassDataKeepsInv(form, cfg, s, data, ec);
      case ReadReply => ReplyDataKeepsInv(form, cfg, s, data, ec);
    }
  }

  lemma {:induction false} RunKeepsInv(form: Form, cfg: Config, s: Session, hs: seq<Happening>)
    requires Inv(cfg, s) && CanDo(form, cfg, s, hs)
    ensures Inv(cfg, Do(form, cfg, s, hs))
    decreases |hs|
  {
    if hs != [] {
      match hs[0] {
        case Data(data, ec) => DataKeepsInv(form, cfg, s, data, ec);
        case Out(k, ec) => OutKeepsInv(form, cfg, s, k, ec);
      }
      RunKeepsInv(form, cfg, Next(form, cfg, s, hs[0]), hs[1..]);
    }
  }

  /** Every run of the client, in either form, with errors at any step. The octets it has written are a prefix
      of [greeting, CONNECT] or [greeting, userpass, CONNECT], each message equal to its encoder's output. It
      has begun credentials only if they are its option and the server chose 02, and CONNECT only after an
      accepted choice of 00, or of 02 and the reply 01 00. If it reports success it has consumed exactly the
      preamble and a granted reply, and written everything; every failure returns the default endpoint. */
  lemma ClientRunSafety(form: Form, cfg: Config, hs: seq<Happening>)
    requires cfg.Valid() && CanDo(form, cfg, Init(cfg), hs)
    ensures var s := Do(form, cfg, Init(cfg), hs);
            && (exists pre :: Preamble(cfg.opt, pre) && Begun(s) <= Script(cfg, pre))
            && s.w <= Joined(Begun(s))
            && (|Begun(s)| == 3 ==> [5, 2, 1, 0] <= s.r)
            && (|Begun(s)| == 2 && Begun(s)[1] == Request(cfg.target) ==> [5, 0] <= s.r)
            && (|Begun(s)| == 2 && Begun(s)[1] != Request(cfg.target) ==> cfg.opt.Userpass? && [5, 2] <= s.r)
    ensures var s := Do(form, cfg, Init(cfg), hs);
            s.pc.Complete? ==>
              if s.pc.ec.Failed() then s.pc.ep == UNSPECIFIED
              else exists pre, reply ::
                     && Preamble(cfg.opt, pre) && Granted(reply) && s.r == pre + reply
                     && s.pc.ep == GrantedEndpoint(reply) && s.w == Joined(Script(cfg, pre))
  {
    hide Inv, Greeting, UserpassRequest, Request, Granted, Joined, Begun, GrantedEndpoint, Preamble;
    InitInv(cfg);
    RunKeepsInv(form, cfg, Init(cfg), hs);
    var s := Do(form, cfg, Init(cfg), hs);
    BegunWritten(cfg, s);
    InvMeans(cfg, s);
  }

  lemma BegunWritten(cfg: Config, s: Session)
    requires Inv(cfg, s)
    ensures s.w <= Joined(Begun(s))
  {
    hide Gated, AtPc, Joined;
    if s.pending != [] {
      JoinedMore(s.out, s.pending);
      assert Joined(Begun(s))[..|s.w|] == Joined(s.out) + s.pending[..s.sent];
    }
  }

  lemma InvMeans(cfg: Config, s: Session)
    requires Inv(cfg, s)
    ensures exists pre :: Preamble(cfg.opt, pre) && Begun(s) <= Script(cfg, pre)
    ensures |Begun(s)| == 3 ==> [5, 2, 1, 0] <= s.r
    ensures |Begun(s)| == 2 && Begun(s)[1] == Request(cfg.target) ==> [5, 0] <= s.r
    ensures |Begun(s)| == 2 && Begun(s)[1] != Request(cfg.target) ==> cfg.opt.Userpass? && [5, 2] <= s.r
    ensures s.pc.Complete? ==>
              if s.pc.ec.Failed() then s.pc.ep == UNSPECIFIED
              else exists pre, reply ::
                     && Preamble(cfg.opt, pre) && Granted(reply) && s.r == pre + reply
                     && s.pc.ep == GrantedEndpoint(reply) && s.w == Joined(Script(cfg, pre))
  {
    hide Greeting, UserpassRequest, Request, Granted, Joined;
    var pre := PreambleOf(s.r);
    if Preamble(cfg.opt, pre) && Begun(s) == Script(cfg, pre) {
    } else if |Begun(s)| == 2 {
      assert Preamble(cfg.opt, [5, 2, 1, 0]) && Begun(s) <= Script(cfg, [5, 2, 1, 0]);
      FirstOctetsDiffer(cfg);
    } else {
      assert Preamble(cfg.opt, [5, 0]) && Begun(s) <= Script(cfg, [5, 0]);
    }
    if s.pc.Complete? && !s.pc.ec.Failed() {
      assert s.r == pre + s.r[|pre|..];
      assert s.w == Joined(s.out) + [];
    }
  }

  lemma FirstOctetsDiffer(cfg: Config)
    requires cfg.Valid()
    ensures cfg.opt.Userpass? ==> UserpassRequest(cfg.opt) != Request(cfg.target)
  {
    if cfg.opt.Userpass? {
      assert UserpassRequest(cfg.opt)[0] == 1 && Request(cfg.target)[0] == 5;
    }
  }
}
