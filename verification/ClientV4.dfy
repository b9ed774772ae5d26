/** The SOCKS4 client in both of its forms. */
module ClientV4 {
  import opened Octets
  import opened Wire
  import opened RoundTrips
  import opened Transport
  import opened ClientCodec
  import opened Client

  datatype PcV4 = WriteRequestV4 | ReadReplyV4 | CompleteV4(ec: ErrorCode, ep: Endpoint)

  /** The result, once the read of the reply has ended. */
  function AfterReadV4(ec: ErrorCode, got: seq<Octet>): (pc: PcV4)
    ensures pc.CompleteV4?
  {
    if ec.Failed() && ec != Eof then CompleteV4(ec, UNSPECIFIED)
    else if |got| != 8 then CompleteV4(BAD_REPLY_SIZE, UNSPECIFIED)
    else var d := DecodeReplyV4(got); CompleteV4(d.ec, d.ep)
  }

  /** The rest of a run once the request was written with `ec`. */
  function AfterRequestV4(ec: ErrorCode, io: Io): Outcome {
    if ec.Failed() then Outcome(ec, UNSPECIFIED, io)
    else
      var r := ComposedRead(TransferAll, 8, [], Success, io.input);
      var pc := AfterReadV4(r.ec, r.data);
      Outcome(pc.ec, pc.ep, io.(input := r.rest))
  }

  function RunV4(ep: Endpoint, user: seq<Octet>, io: Io): Outcome {
    var s := Hand(io, RequestV4(ep, user));
    AfterRequestV4(s.ec, s.io)
  }

  /** The blocking `connect_v4`: the reply is read over the request in the same buffer. */
  method ConnectV4(stream: Stream, target: Endpoint, user: seq<Octet>) returns (ec: ErrorCode, ep: Endpoint)
    requires target.V4?
    modifies stream
    ensures Outcome(ec, ep, stream.State()) == RunV4(target, user, old(stream.State()))
  {
    hide ComposedRead;
    var buffer := new Octet[9 + |user|];
    var n := PrepareRequestV4(buffer, target, user);
    assert buffer[..n] == buffer[..];
    ec := stream.Write(buffer, n);
    if ec.Failed() { return ec, UNSPECIFIED; }
    n, ec := stream.Read(buffer, 8, TransferAll);
    if ec.Failed() && ec != Eof { return ec, UNSPECIFIED; }
    if n != 8 { return BAD_REPLY_SIZE, UNSPECIFIED; }
    ec, ep := ParseReplyV4(buffer);
  }

  /** The coroutine form, `connect_v4_op`. */
  class ConnectV4Op {
    const buf: array<Octet>
    var pc: PcV4

    ghost predicate Valid() { buf.Length >= 9 }

    constructor (target: Endpoint, user: seq<Octet>)
      requires target.V4?
      ensures Valid() && pc == WriteRequestV4 && fresh(buf) && buf[..] == RequestV4(target, user)
    {
      buf := new Octet[9 + |user|];
      pc := WriteRequestV4;
      new;
      var n := PrepareRequestV4(buf, target, user);
      assert buf[..n] == buf[..];
    }

    method OnWritten(ec: ErrorCode)
      requires Valid() && pc.WriteRequestV4?
      modifies this`pc
      ensures pc == if ec.Failed() then CompleteV4(ec, UNSPECIFIED) else ReadReplyV4
    {
      pc := if ec.Failed() then CompleteV4(ec, UNSPECIFIED) else ReadReplyV4;
    }

    method OnRead(ec: ErrorCode, n: nat)
      requires Valid() && pc.ReadReplyV4? && n <= 8
      modifies this`pc
      ensures pc == AfterReadV4(ec, buf[..n])
    {
      if ec.Failed() && ec != Eof { pc := CompleteV4(ec, UNSPECIFIED); return; }
      if n != 8 { pc := CompleteV4(BAD_REPLY_SIZE, UNSPECIFIED); return; }
      var e, ep := ParseReplyV4(buf);
      pc := CompleteV4(e, ep);
    }
  }

  /** `async_connect_v4` with the stream's events delivered one after another. Its contract is that of the
      blocking form: the two agree on octets written, error and endpoint for every stream. */
  method AsyncConnectV4(stream: Stream, target: Endpoint, user: seq<Octet>) returns (ec: ErrorCode, ep: Endpoint)
    requires target.V4?
    modifies stream
    ensures Outcome(ec, ep, stream.State()) == RunV4(target, user, old(stream.State()))
  {
    hide ComposedRead;
    var op := new ConnectV4Op(target, user);
    var n := op.buf.Length;
    assert op.buf[..n] == op.buf[..];
    var e := stream.Write(op.buf, n);
    op.OnWritten(e);
    if op.pc.ReadReplyV4? {
      n, e := stream.Read(op.buf, 8, TransferAll);
      op.OnRead(e, n);
    }
    ec, ep := op.pc.ec, op.pc.ep;
  }

  /** Success consumes exactly the eight octets of the reply, after exactly one message; any failure
      returns the default endpoint. */
  lemma V4ConsumesExactly(ep: Endpoint, user: seq<Octet>, io: Io)
    requires ep.V4?
    ensures var out := RunV4(ep, user, io);
            && out.io.handed == io.handed + [RequestV4(ep, user)]
            && (if out.ec.Failed() then out.ep == UNSPECIFIED
                else exists reply: seq<Octet> ::
                       && |reply| == 8 && (reply[0] == 0 || reply[0] == 4) && reply[1] == 90
                       && Flatten(io.input) == reply + Flatten(out.io.input)
                       && out.ep == V4(reply[3..7], PortFrom(reply[2], reply[3])))
  {
    hide ComposedRead, Flatten, RequestV4;
    var s := Hand(io, RequestV4(ep, user));
    var r := ComposedRead(TransferAll, 8, [], Success, s.io.input);
    if !RunV4(ep, user, io).ec.Failed() {
      assert |r.data| == 8 && Flatten(io.input) == r.data + Flatten(r.rest);
    }
  }

  /** Client and server composed: for every cut of the server's granting reply, whatever follows it, the
      client succeeds and returns the port the server sent, but an address that is off by one octet. It
      returns the server's endpoint exactly if all address octets equal the port's low octet. */
  lemma V4ReplyThroughClient(ep: Endpoint, user: seq<Octet>, bnd: Endpoint, input: seq<Segment>, tail: seq<Octet>)
    requires ep.V4? && bnd.V4?
    requires Clean(input) && Flatten(input) == ReplyV4(90, bnd) + tail
    ensures var out := RunV4(ep, user, Io(input, [], [], []));
            && !out.ec.Failed() && Flatten(out.io.input) == tail
            && out.ep == V4([bnd.port % 256] + bnd.addr[..3], bnd.port)
            && (out.ep == bnd <==> forall a <- bnd.addr :: a == bnd.port % 256)
  {
    hide ComposedRead, Flatten, RequestV4;
    ReadsExactly(TransferAll, 8, ReplyV4(90, bnd), tail, input);
    ReplyV4AsWritten(90, bnd);
    ReplyV4RoundTripExactly(bnd);
  }
}
