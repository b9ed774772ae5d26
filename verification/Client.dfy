/** The SOCKS5 client: its course as a function of what the stream does, and the blocking operations that
    follow it. */
module Client {
  import opened Octets
  import opened Wire
  import opened Transport
  import opened ClientCodec

  /** The two implementations: straight-line blocking calls, and a resumable coroutine. */
  datatype Form = Sync | Async

  datatype Config = Config(opt: AuthOptions, target: Target) {
    /** What the encoders assert: each credential has a one-octet length, and the request fits the buffer. */
    predicate Valid() { opt.Valid() && RequestSize(target) <= 513 }
  }

  /** Where the operation stands: the composed write or read it waits for, or its result. */
  datatype Pc =
    | WriteGreeting | ReadChoice | WriteUserpass | ReadUserpass | WriteRequest | ReadReply
    | Complete(ec: ErrorCode, ep: Endpoint)
  {
    predicate Writing() { WriteGreeting? || WriteUserpass? || WriteRequest? }
    predicate Reading() { ReadChoice? || ReadUserpass? || ReadReply? }

    /** Credentials are at hand where they are needed. */
    predicate Fits(cfg: Config) { cfg.Valid() && (WriteUserpass? || ReadUserpass? ==> cfg.opt.Userpass?) }

    function Rank(): nat {
      match this
      case WriteGreeting => 6 case ReadChoice => 5 case WriteUserpass => 4 case ReadUserpass => 3
      case WriteRequest => 2 case ReadReply => 1 case Complete(_, _) => 0
    }

    function Size(): nat { if ReadReply? then 22 else 2 }
    function Cond(): Condition { if ReadReply? then ReplyCond else TransferAll }
  }

  function Message(cfg: Config, pc: Pc): seq<Octet>
    requires pc.Fits(cfg) && pc.Writing()
  {
    match pc
    case WriteGreeting => Greeting(cfg.opt)
    case WriteUserpass => UserpassRequest(cfg.opt)
    case WriteRequest => Request(cfg.target)
  }

  function AfterWrite(pc: Pc, ec: ErrorCode): Pc
    requires pc.Writing()
  {
    if ec.Failed() then Complete(ec, UNSPECIFIED)
    else match pc case WriteGreeting => ReadChoice case WriteUserpass => ReadUserpass case WriteRequest => ReadReply
  }

  /** The error code after the user/pass reply was looked at. The blocking form looks at it unless the read
      failed with something other than end of file; the coroutine always looks. */
  function UserpassOutcome(form: Form, ec: ErrorCode, got: seq<Octet>): ErrorCode {
    if form.Sync? && ec.Failed() && ec != Eof then ec else UserpassVerdict(got, ec)
  }

  function AfterRead(form: Form, cfg: Config, pc: Pc, ec: ErrorCode, got: seq<Octet>): (r: Pc)
    requires pc.Fits(cfg) && pc.Reading()
    ensures r.Fits(cfg) && r.Rank() < pc.Rank()
  {
    match pc
    case ReadChoice =>
      var ec' := if ec.Failed() && ec != Eof then ec else ChoiceVerdict(got, cfg.opt.Code(), ec);
      if ec'.Failed() then Complete(ec', UNSPECIFIED)
      else if got[1] == 2 then WriteUserpass
      else WriteRequest
    case ReadUserpass =>
      var ec' := UserpassOutcome(form, ec, got);
      // The coroutine goes on after an end of file, the blocking form does not.
      if ec'.Failed() && !(form.Async? && ec' == Eof) then Complete(ec', UNSPECIFIED) else WriteRequest
    case ReadReply =>
      if ec.Failed() && ec != Eof then Complete(ec, UNSPECIFIED)
      else if |got| != 10 && |got| != 22 then Complete(BAD_REPLY_SIZE, UNSPECIFIED)
      else var d := DecodeReply(got); Complete(d.ec, d.ep)
  }

  datatype Outcome = Outcome(ec: ErrorCode, ep: Endpoint, io: Io)

  /** The rest of a run from `pc` on: result, and what the stream looks like at the end. */
  function RunFrom(form: Form, cfg: Config, pc: Pc, io: Io): Outcome
    requires pc.Fits(cfg)
    decreases pc.Rank()
  {
    if pc.Complete? then Outcome(pc.ec, pc.ep, io)
    else if pc.Writing() then
      var s := Hand(io, Message(cfg, pc));
      RunFrom(form, cfg, AfterWrite(pc, s.ec), s.io)
    else
      var r := ComposedRead(pc.Cond(), pc.Size(), [], Success, io.input);
      RunFrom(form, cfg, AfterRead(form, cfg, pc, r.ec, r.data), io.(input := r.rest))
  }

  function Run(form: Form, cfg: Config, io: Io): Outcome
    requires cfg.Valid()
  {
    RunFrom(form, cfg, WriteGreeting, io)
  }

  // ---------------------------------------------------------------- the blocking form

  /** The middle part of `authenticate`: send user name and password, and judge the reply. */
  method SendCredentials(stream: Stream, buffer: array<Octet>, opt: AuthOptions, ghost cfg: Config)
    returns (ec: ErrorCode)
    requires buffer.Length == 513 && cfg.opt == opt && WriteUserpass.Fits(cfg)
    modifies stream, buffer
    ensures RunFrom(Sync, cfg, WriteUserpass, old(stream.State()))
            == if ec.Failed() then Outcome(ec, UNSPECIFIED, stream.State())
               else RunFrom(Sync, cfg, WriteRequest, stream.State())
  {
    ghost var all := RunFrom(Sync, cfg, WriteUserpass, stream.State());
    var n := PrepareUserpassRequest(buffer, opt);
    ec := stream.Write(buffer, n);
    if ec.Failed() { return; }
    assert all == RunFrom(Sync, cfg, ReadUserpass, stream.State());
    n, ec := stream.Read(buffer, 2, TransferAll);
    assert all == RunFrom(Sync, cfg, AfterRead(Sync, cfg, ReadUserpass, ec, buffer[..n]), stream.State());
    if !ec.Failed() || ec == Eof {
      ec := ValidateUserpassReply(buffer, n, ec);
    }
  }

  /** `authenticate`: greeting, server choice and, if that was chosen, user name and password. It ends the
      run with its error, or leaves it where the CONNECT request is to be written. */
  method Authenticate(stream: Stream, buffer: array<Octet>, opt: AuthOptions, ghost target: Target)
    returns (ec: ErrorCode)
    requires buffer.Length == 513 && Config(opt, target).Valid()
    modifies stream, buffer
    ensures var cfg := Config(opt, target);
            Run(Sync, cfg, old(stream.State()))
            == if ec.Failed() then Outcome(ec, UNSPECIFIED, stream.State())
               else RunFrom(Sync, cfg, WriteRequest, stream.State())
  {
    ghost var cfg := Config(opt, target);
    ghost var all := Run(Sync, cfg, stream.State());
    var n := PrepareGreeting(buffer, opt);
    ec := stream.Write(buffer, n);
    if ec.Failed() { return; }
    assert all == RunFrom(Sync, cfg, ReadChoice, stream.State());
    n, ec := stream.Read(buffer, 2, TransferAll);
    assert all == RunFrom(Sync, cfg, AfterRead(Sync, cfg, ReadChoice, ec, buffer[..n]), stream.State());
    if !ec.Failed() || ec == Eof {
      ec := ValidateServerChoice(buffer, n, opt, ec);
    }
    if ec.Failed() { return; }
    if buffer[1] == 2 {
      ec := SendCredentials(stream, buffer, opt, cfg);
    }
  }

  method WriteConnectRequest(stream: Stream, buffer: array<Octet>, target: Target) returns (ec: ErrorCode)
    requires RequestSize(target) <= buffer.Length
    modifies stream, buffer
    ensures Hand(old(stream.State()), Request(target)) == Sent(ec, stream.State())
  {
    var n := PrepareRequest(buffer, target);
    ec := stream.Write(buffer, n);
  }

  method ReadConnectReply(stream: Stream, buffer: array<Octet>) returns (ec: ErrorCode, ep: Endpoint)
    requires 22 <= buffer.Length
    modifies stream, buffer
    ensures var io := old(stream.State());
            var r := ComposedRead(ReplyCond, 22, [], Success, io.input);
            && stream.State() == io.(input := r.rest)
            && (if r.ec.Failed() && r.ec != Eof then ec == r.ec && ep == UNSPECIFIED
                else if |r.data| != 10 && |r.data| != 22 then ec == BAD_REPLY_SIZE && ep == UNSPECIFIED
                else Decoded(ec, ep) == DecodeReply(r.data))
  {
    var n: nat;
    n, ec := stream.Read(buffer, 22, ReplyCond);
    if ec.Failed() && ec != Eof { return ec, UNSPECIFIED; }
    if n != 10 && n != 22 { return BAD_REPLY_SIZE, UNSPECIFIED; }
    ec, ep := ParseReplyV5(buffer, n);
  }

  /** Both overloads of the blocking `connect`: every message goes through one buffer of 513 octets. */
  method Connect(stream: Stream, target: Target, opt: AuthOptions) returns (ec: ErrorCode, ep: Endpoint)
    requires Config(opt, target).Valid()
    modifies stream
    ensures Outcome(ec, ep, stream.State()) == Run(Sync, Config(opt, target), old(stream.State()))
  {
    hide ComposedRead, Greeting, UserpassRequest, Request, DecodeReply;
    var buffer := new Octet[513];
    ec := Authenticate(stream, buffer, opt, target);
    if ec.Failed() { return ec, UNSPECIFIED; }
    ec := WriteConnectRequest(stream, buffer, target);
    if ec.Failed() { return ec, UNSPECIFIED; }
    ec, ep := ReadConnectReply(stream, buffer);
  }
}
