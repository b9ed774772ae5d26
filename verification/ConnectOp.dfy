/** The SOCKS5 client as a coroutine: `connect_op` is resumed with the outcome of each composed operation it
    started, and keeps its place, its buffer and the request's parameters in between. */
module ConnectOps {
  import opened Octets
  import opened Wire
  import opened Transport
  import opened ClientCodec
  import opened Client

  class ConnectOp {
    const buf: array<Octet>
    const target: Target
    const opt: AuthOptions
    /** The coroutine's place: the composed operation whose outcome it waits for. */
    var pc: Pc
    /** How much of the buffer the outstanding write covers. */
    var pending: nat

    ghost function Cfg(): Config { Config(opt, target) }

    ghost predicate Valid()
      reads this, buf
    {
      && buf.Length == 513 && pc.Fits(Cfg())
      && (pc.Writing() ==> pending <= 513 && buf[..pending] == Message(Cfg(), pc))
    }

    /** The operation up to its first suspension: the greeting is in the buffer. */
    constructor (target: Target, opt: AuthOptions)
      requires Config(opt, target).Valid()
      ensures Valid() && pc == WriteGreeting && Cfg() == Config(opt, target) && fresh(buf)
    {
      this.buf := new Octet[513];
      this.target, this.opt := target, opt;
      pc := WriteGreeting;
      pending := 0;
      new;
      pending := PrepareGreeting(buf, opt);
    }

    /** Resume after a write. */
    method OnWritten(ec: ErrorCode)
      requires Valid() && pc.Writing()
      modifies this`pc
      ensures Valid() && pc == AfterWrite(old(pc), ec)
    {
      if ec.Failed() { pc := Complete(ec, UNSPECIFIED); return; }
      match pc {
        case WriteGreeting => pc := ReadChoice;
        case WriteUserpass => pc := ReadUserpass;
        case WriteRequest => pc := ReadReply;
      }
    }

    method SendRequest()
      requires buf.Length == 513 && Cfg().Valid()
      modifies this, buf
      ensures Valid() && pc == WriteRequest
    {
      pending := PrepareRequest(buf, target);
      pc := WriteRequest;
    }

    /** Resume after a read that has put `n` octets into the buffer. */
    method OnRead(ec0: ErrorCode, n: nat)
      requires Valid() && pc.Reading() && n <= pc.Size()
      modifies this, buf
      ensures Valid() && pc == AfterRead(Async, Cfg(), old(pc), ec0, old(buf[..n]))
    {
      var ec := ec0;
      match pc {
        case ReadChoice =>
          if !ec.Failed() || ec == Eof { ec := ValidateServerChoice(buf, n, opt, ec); }
          if ec.Failed() { pc := Complete(ec, UNSPECIFIED); return; }
          if buf[1] == 2 {
            pending := PrepareUserpassRequest(buf, opt);
            pc := WriteUserpass;
          } else {
            SendRequest();
          }
        case ReadUserpass =>
          ec := ValidateUserpassReply(buf, n, ec);
          if ec.Failed() && ec != Eof { pc := Complete(ec, UNSPECIFIED); return; }
          SendRequest();
        case ReadReply =>
          if ec.Failed() && ec != Eof { pc := Complete(ec, UNSPECIFIED); return; }
          if n != 10 && n != 22 { pc := Complete(BAD_REPLY_SIZE, UNSPECIFIED); return; }
          var e, ep := ParseReplyV5(buf, n);
          pc := Complete(e, ep);
      }
    }

    /** The coroutine driven over a stream, from its first suspension to its completion. */
    method Drive(stream: Stream) returns (ec: ErrorCode, ep: Endpoint)
      requires Valid() && pc == WriteGreeting
      modifies this, buf, stream
      ensures Outcome(ec, ep, stream.State()) == Run(Async, Cfg(), old(stream.State()))
    {
      hide ComposedRead, Greeting, Request, UserpassRequest;
      ghost var all := Run(Async, Cfg(), stream.State());
      while !pc.Complete?
        invariant Valid() && RunFrom(Async, Cfg(), pc, stream.State()) == all
        decreases pc.Rank()
      {
        var e: ErrorCode;
        if pc.Writing() {
          e := stream.Write(buf, pending);
          OnWritten(e);
        } else {
          var n: nat;
          n, e := stream.Read(buf, pc.Size(), pc.Cond());
          OnRead(e, n);
        }
      }
      ec, ep := pc.ec, pc.ep;
    }
  }

  /** `async_connect` with the stream's events delivered one after another. */
  method AsyncConnect(stream: Stream, target: Target, opt: AuthOptions) returns (ec: ErrorCode, ep: Endpoint)
    requires Config(opt, target).Valid()
    modifies stream
    ensures Outcome(ec, ep, stream.State()) == Run(Async, Config(opt, target), old(stream.State()))
  {
    var op := new ConnectOp(target, opt);
    ec, ep := op.Drive(stream);
  }
}
