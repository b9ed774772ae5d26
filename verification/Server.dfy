/** The course of one server connection as a function of what its sockets and its resolver do. */
module Server {
  import opened Octets
  import opened Wire
  import opened Transport

  /** Which asynchronous operation is outstanding, and so which handler runs next. */
  datatype Pc =
    | ReadingGreeting | WritingChoice | ReadingUserpass | WritingStatus | ReadingConnect
    | Resolving(host: seq<Octet>, port: Port) | Dialling(v4: bool) | WritingReply(v4: bool)
    | Relaying | Closed
  {
    predicate Reading() { ReadingGreeting? || ReadingUserpass? || ReadingConnect? }
    predicate Writing() { WritingChoice? || WritingStatus? || WritingReply? }

    function Size(): nat { if ReadingGreeting? then 258 else if ReadingUserpass? then 513 else 263 }

    function Cond(): Condition {
      if ReadingGreeting? then GreetingCond else if ReadingUserpass? then UserpassCond else ConnectCond
    }
  }

  /** A connection: while reading, `data` is what this read has received; while writing, it is the message,
      of which `n` octets are out. */
  datatype Conn = Conn(pc: Pc, data: seq<Octet>, n: nat, choice: Octet, target: Endpoint) {
    /** A read that is under way has not met its condition, a write is not complete. */
    predicate Valid() {
      && (pc.Reading() ==> |data| < pc.Size() && !Stops(pc.Cond(), pc.Size(), Success, data))
      && (pc.Writing() ==> n < |data|)
      && (pc.WritingReply? ==> |data| >= 2)
    }
  }

  const START := Conn(ReadingGreeting, [], 0, 0, UNSPECIFIED)

  function Read(c: Conn, pc: Pc): Conn
    requires pc.Reading()
  {
    c.(pc := pc, data := [], n := 0)
  }

  function Write(c: Conn, pc: Pc, msg: seq<Octet>): Conn { c.(pc := pc, data := msg, n := 0) }

  function Close(c: Conn): Conn { c.(pc := Closed, data := [], n := 0) }

  /** A CONNECT reply with `rep`; a failure needs no bound endpoint. */
  function Answer(c: Conn, rep: Octet, bnd: Endpoint): Conn { Write(c, WritingReply(false), Reply(rep, bnd)) }
  function AnswerV4(c: Conn, rep: Octet, bnd: Endpoint): Conn { Write(c, WritingReply(true), ReplyV4(rep, bnd)) }

  /** Each read starts short of its condition, and ends by it only with a message the parser can index. */
  lemma ReadFacts(pc: Pc, data: seq<Octet>)
    requires pc.Reading() && |data| <= pc.Size()
    ensures !Stops(pc.Cond(), pc.Size(), Success, [])
    ensures Stops(pc.Cond(), pc.Size(), Success, data) ==> |data| > 0
    ensures pc.ReadingConnect? && Stops(ConnectCond, 263, Success, data) && |data| == 4 ==>
              data[0] == 5 && data[1] == 1 && data[2] == 0 ==> data[3] != 3
  {
  }

  /** What follows a completed read: the greeting's first octet tells SOCKS5 from SOCKS4. */
  function AfterRead(c: Conn, ec: ErrorCode): Conn
    requires c.pc.Reading() && |c.data| <= c.pc.Size() && Stops(c.pc.Cond(), c.pc.Size(), ec, c.data)
    requires ec == Success || ec.Failed()
  {
    if ec.Failed() then Close(c)
    else
      ReadFacts(c.pc, c.data);
      match c.pc
      case ReadingGreeting =>
        if c.data[0] == 5 then
          match ParseGreeting(c.data)
          case None => Close(c)
          case Some(choice) => Write(c.(choice := choice), WritingChoice, [5, choice])
        else if c.data[0] == 4 then
          match ParseConnectV4(c.data)
          case None => AnswerV4(c, 91, UNSPECIFIED)
          case Some(ep) => c.(pc := Dialling(true), target := ep)
        else Close(c)
      case ReadingUserpass =>
        if ParseUserpassAt(c.data, 2).None? then Close(c) else Write(c, WritingStatus, [1, 0])
      case ReadingConnect =>
        match ParseConnect(c.data)
        case Refuse(rep) => Answer(c, rep, UNSPECIFIED)
        case Dial(ep) => c.(pc := Dialling(false), target := ep)
        case Resolve(host, port) => c.(pc := Resolving(host, port))
  }

  /** One `read_some` of the composed read under way delivered `data` and `ec`. */
  function OnData(c: Conn, data: seq<Octet>, ec: ErrorCode): Conn
    requires c.pc.Reading() && |c.data| + |data| <= c.pc.Size() && (ec == Success || ec.Failed())
  {
    var c' := c.(data := c.data + data);
    if Stops(c.pc.Cond(), c.pc.Size(), ec, c'.data) then AfterRead(c', ec) else c'
  }

  function AfterWrite(c: Conn): Conn
    requires c.pc.Writing() && c.Valid()
  {
    match c.pc
    case WritingChoice =>
      if c.choice == 0xFF then Close(c)
      else if c.choice == 2 then Read(c, ReadingUserpass)
      else Read(c, ReadingConnect)
    case WritingStatus => Read(c, ReadingConnect)
    case WritingReply(v4) =>
      var granted := if v4 then (c.data[0] == 5 && c.data[1] == 0) || (c.data[0] == 4 && c.data[1] == 90)
                     else c.data[1] == 0;
      if granted then c.(pc := Relaying, data := [], n := 0) else Close(c)
  }

  /** One `write_some` of the composed write under way took `k` octets. */
  function OnSent(c: Conn, k: nat, ec: ErrorCode): Conn
    requires c.pc.Writing() && c.Valid() && c.n + k <= |c.data|
  {
    if ec.Failed() then Close(c)
    else if c.n + k == |c.data| then AfterWrite(c)
    else c.(n := c.n + k)
  }

  /** The resolver's answer: an endpoint, or none. */
  function OnResolved(c: Conn, answer: Option<Endpoint>): Conn
    requires c.pc.Resolving?
  {
    match answer
    case None => Answer(c, 4, UNSPECIFIED)
    case Some(ep) => c.(pc := Dialling(false), target := ep)
  }

  /** The outcome of connecting to the target, with the local endpoint of the new connection. */
  function OnDialled(c: Conn, ok: bool, bnd: Endpoint): Conn
    requires c.pc.Dialling?
  {
    if c.pc.v4 then AnswerV4(c, if ok then 90 else 91, bnd)
    else Answer(c, if ok then 0 else 4, bnd)
  }

  /** A handler that runs after a read starts a message, a lookup or a connection, or closes. */
  lemma AfterReadShape(c: Conn, ec: ErrorCode)
    requires c.pc.Reading() && |c.data| <= c.pc.Size() && Stops(c.pc.Cond(), c.pc.Size(), ec, c.data)
    requires ec == Success || ec.Failed()
    ensures var c' := AfterRead(c, ec);
            && !c'.pc.Reading() && !c'.pc.Relaying? && c'.Valid()
            && (c'.pc.Writing() ==> c'.n == 0)
  {
    hide Stops, ReplyV4, Reply, ParseGreeting, ParseConnectV4, ParseConnect, ParseUserpassAt;
  }

  /** A handler that runs after a write starts a read or the relay, or closes. */
  lemma AfterWriteShape(c: Conn)
    requires c.pc.Writing() && c.Valid()
    ensures var c' := AfterWrite(c);
            c'.Valid() && !c'.pc.Writing() && (c'.pc.Reading() ==> c'.data == [])
  {
  }
}
