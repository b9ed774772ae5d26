/** The server connection as an object: handlers that resize and overwrite its buffers and chain its states. */
module SocksConnections {
  import opened Octets
  import opened Wire
  import opened Transport
  import opened Server
  import Relay

  /** `std::vector::resize`: cut, or extend with zeros. */
  function Resize(b: seq<Octet>, n: nat): (r: seq<Octet>)
    ensures |r| == n
    ensures forall i | 0 <= i < n :: r[i] == if i < |b| then b[i] else 0
  {
    if n <= |b| then b[..n] else b + seq(n - |b|, _ => 0)
  }

  class SocksConnection {
    var buffer: seq<Octet>
    var targetBuffer: seq<Octet>
    var serverChoice: Octet
    var target: Endpoint
    /** The outstanding operation, and its progress in octets. */
    var pc: Pc
    var n: nat
    var clientLoop: Relay.Phase
    var targetLoop: Relay.Phase
    /** Everything each relay loop has read and written, and what a failed write left over. */
    ghost var fromClient: seq<Octet>
    ghost var toTarget: seq<Octet>
    ghost var upLeft: seq<Octet>
    ghost var fromTarget: seq<Octet>
    ghost var toClient: seq<Octet>
    ghost var downLeft: seq<Octet>

    /** The connection without the octets of the buffer that mean nothing at present. */
    ghost function State(): Conn
      reads this
      requires n <= |buffer|
    {
      Conn(pc,
           if pc.Reading() then buffer[..n] else if pc.Relaying? || pc.Closed? then [] else buffer,
           if pc.Writing() then n else 0, serverChoice, target)
    }

    /** Before the greeting arrives, octets 0 and 1 of the new buffer are zero. */
    ghost predicate Valid()
      reads this
    {
      && n <= |buffer| && State().Valid()
      && (pc.Reading() ==> |buffer| == pc.Size())
      && (pc.ReadingGreeting? ==> forall i | n <= i < 2 :: buffer[i] == 0)
    }

    constructor ()
      ensures Valid() && State() == START
    {
      buffer, targetBuffer := Resize([], 258), [];
      serverChoice, target := 0, UNSPECIFIED;
      pc, n := ReadingGreeting, 0;
      clientLoop, targetLoop := Relay.Off, Relay.Off;
      fromClient, toTarget, upLeft := [], [], [];
      fromTarget, toClient, downLeft := [], [], [];
      new;
      assert buffer[..0] == [];
    }

    // ------------------------------------------------------------ composed reads and writes

    /** A `read_some` completed: put the octets behind those received, and let the condition, which sees the
        whole buffer, decide whether the handler runs. */
    method OnReadSome(data: seq<Octet>, ec: ErrorCode)
      requires Valid() && pc.Reading() && n + |data| <= pc.Size()
      requires (ec == Success || ec.Failed()) && (data != [] || ec.Failed())
      modifies this
      ensures Valid() && State() == OnData(old(State()), data, ec)
    {
      hide Limit, LimitAt, AfterRead;
      ghost var c := State();
      buffer := buffer[..n] + data + buffer[n + |data|..];
      n := n + |data|;
      assert buffer[..n] == c.data + data;
      NoStaleRead(pc.Cond(), ec, n, buffer);
      var max := LimitAt(pc.Cond(), ec, n, buffer);
      if n == |buffer| || max == 0 {
        AfterReadShape(State(), ec);
        OnReadComplete(ec);
      }
    }

    /** The handler of the composed read: it acts on exactly the octets received. */
    method OnReadComplete(ec: ErrorCode)
      requires pc.Reading() && n <= |buffer| == pc.Size() && (ec == Success || ec.Failed())
      requires Stops(pc.Cond(), pc.Size(), ec, buffer[..n])
      modifies this
      ensures n <= |buffer| && State() == AfterRead(old(State()), ec)
      ensures pc.Reading() ==> |buffer| == pc.Size() && !pc.ReadingGreeting?
    {
      if ec.Failed() { pc, n := Closed, 0; return; }
      ReadFacts(pc, buffer[..n]);
      buffer := buffer[..n];
      match pc {
        case ReadingGreeting =>
          if buffer[0] == 5 { ParseSocksGreeting(); }
          else if buffer[0] == 4 { ParseSocksConnectV4(); }
          else { pc, n := Closed, 0; }
        case ReadingUserpass => ParseUserpassGreeting();
        case ReadingConnect => ParseSocksConnect();
      }
    }

    /** The first octet from `from` on that equals `v`. */
    method Find(v: Octet, from: nat) returns (found: bool)
      requires from <= |buffer|
      ensures found <==> v in buffer[from..]
    {
      for i := from to |buffer|
        invariant v !in buffer[from..i]
      {
        if buffer[i] == v {
          assert buffer[from..][i - from] == v;
          return true;
        }
        assert buffer[from..i + 1] == buffer[from..i] + [buffer[i]];
      }
      assert buffer[from..|buffer|] == buffer[from..];
      found := false;
    }

    method ParseSocksGreeting()
      requires buffer != [] && n == |buffer|
      modifies this`buffer, this`serverChoice, this`pc, this`n
      ensures n <= |buffer| && !pc.Reading()
      ensures match ParseGreeting(old(buffer))
              case None => pc == Closed && serverChoice == old(serverChoice)
              case Some(c) => pc == WritingChoice && serverChoice == c && buffer == [5, c] && n == 0
    {
      if buffer[0] != 5 || |buffer| == 1 || buffer[1] != |buffer| - 2 { pc, n := Closed, 0; return; }
      var userpass := Find(2, 2);
      if userpass {
        serverChoice := 2;
      } else {
        var none := Find(0, 2);
        serverChoice := if none then 0 else 0xFF;
      }
      buffer := [5, serverChoice];
      pc, n := WritingChoice, 0;
    }

    method ParseUserpassGreeting()
      requires buffer != [] && n == |buffer|
      modifies this`buffer, this`pc, this`n
      ensures n <= |buffer|
      ensures if ParseUserpassAt(old(buffer), 2).None? then pc == Closed
              else pc == WritingStatus && buffer == [1, 0] && n == 0
    {
      var ok := buffer[0] == 1 && |buffer| != 1;
      if ok {
        var idlen: nat := buffer[1];
        ok := |buffer| >= idlen + 2 && |buffer| >= idlen + 3;
        if ok {
          var passlen: nat := buffer[2 + idlen];
          ok := |buffer| >= idlen + 3 + passlen;
        }
      }
      if !ok { pc, n := Closed, 0; return; }
      buffer := [1, 0];
      pc, n := WritingStatus, 0;
    }

    /** `port |= hi; port <<= 8; port |= lo` on sixteen bits. */
    function PortAt(i: nat): Port
      reads this
      requires i + 2 <= |buffer|
      ensures PortAt(i) == PortFrom(buffer[i], buffer[i + 1])
    {
      var hi: nat := buffer[i];
      (hi * 256) % 0x1_0000 + buffer[i + 1]
    }

    method ParseSocksConnect()
      requires buffer != [] && n == |buffer|
      requires |buffer| == 4 && buffer[0] == 5 && buffer[1] == 1 && buffer[2] == 0 ==> buffer[3] != 3
      modifies this`buffer, this`target, this`pc, this`n
      ensures n <= |buffer|
      ensures match ParseConnect(old(buffer))
              case Refuse(rep) =>
                pc == WritingReply(false) && buffer == Reply(rep, UNSPECIFIED) && n == 0 && target == old(target)
              case Dial(ep) => pc == Dialling(false) && target == ep && buffer == old(buffer)
              case Resolve(host, port) => pc == Resolving(host, port) && target == old(target) && buffer == old(buffer)
    {
      var bad: Octet := 0;
      if buffer[0] != 5 || |buffer| == 1 { bad := 2; }
      else if buffer[1] != 1 { bad := 7; }
      else if |buffer| == 2 || buffer[2] != 0 || |buffer| == 3 { bad := 2; }
      else if buffer[3] == 1 {
        if |buffer| == 10 {
          target := V4([buffer[4], buffer[5], buffer[6], buffer[7]], PortAt(8));
          assert buffer[4..8] == target.addr;
          pc := Dialling(false);
        } else { bad := 8; }
      } else if buffer[3] == 4 {
        if |buffer| == 22 {
          var addr: seq<Octet> := [];
          for i := 0 to 16
            invariant addr == buffer[4..4 + i]
          {
            addr := addr + [buffer[4 + i]];
          }
          target := V6(addr, PortAt(20));
          pc := Dialling(false);
        } else { bad := 8; }
      } else if buffer[3] == 3 {
        var len: nat := buffer[4];
        if |buffer| == 7 + len {
          pc := Resolving(buffer[5..5 + len], PortAt(|buffer| - 2));
        } else { bad := 8; }
      } else { bad := 8; }
      if bad != 0 { DoConnectReply(bad, UNSPECIFIED); }
    }

    method ParseSocksConnectV4()
      requires buffer != [] && n == |buffer|
      modifies this`buffer, this`target, this`pc, this`n
      ensures n <= |buffer|
      ensures match ParseConnectV4(old(buffer))
              case None =>
                pc == WritingReply(true) && buffer == ReplyV4(91, UNSPECIFIED) && n == 0 && target == old(target)
              case Some(ep) => pc == Dialling(true) && target == ep && buffer == old(buffer)
    {
      if buffer[0] != 4 || |buffer| == 1 || buffer[1] != 1 || |buffer| < 8 {
        DoConnectReplyV4(91, UNSPECIFIED);
      } else {
        target := V4([buffer[4], buffer[5], buffer[6], buffer[7]], PortAt(2));
        assert buffer[4..8] == target.addr;
        pc := Dialling(true);
      }
    }

    // ------------------------------------------------------------ the target side

    method OnResolveComplete(answer: Option<Endpoint>)
      requires Valid() && pc.Resolving?
      modifies this
      ensures Valid() && State() == OnResolved(old(State()), answer)
    {
      match answer {
        case None => DoConnectReply(4, UNSPECIFIED);
        case Some(ep) =>
          target := ep;
          pc := Dialling(false);
      }
    }

    method OnConnectComplete(ok: bool, bnd: Endpoint)
      requires Valid() && pc.Dialling?
      modifies this
      ensures Valid() && State() == OnDialled(old(State()), ok, bnd)
    {
      if pc.v4 {
        DoConnectReplyV4(if ok then 90 else 91, bnd);
      } else {
        DoConnectReply(if ok then 0 else 4, bnd);
      }
    }

    /** Overwrite the buffer from octet `at` on. */
    method Put(at: nat, s: seq<Octet>)
      requires at + |s| <= |buffer|
      modifies this`buffer
      ensures buffer == old(buffer)[..at] + s + old(buffer)[at + |s|..]
    {
      for i := 0 to |s|
        invariant buffer == old(buffer)[..at] + s[..i] + old(buffer)[at + i..]
      {
        buffer := buffer[at + i := s[i]];
      }
    }

    /** VER, REP, RSV, ATYP, an address and a port over a buffer of the right size. */
    method FillReply(rep: Octet, atyp: Octet, addr: seq<Octet>, port: Port)
      requires |buffer| == 6 + |addr|
      modifies this`buffer
      ensures buffer == [5, rep, 0, atyp] + addr + PortOctets(port)
    {
      Put(0, [5, rep, 0, atyp]);
      Put(4, addr);
      assert buffer[..4 + |addr|] == [5, rep, 0, atyp] + addr;
      Put(4 + |addr|, [(port / 256) % 256, port % 256]);
    }

    method DoConnectReply(rep: Octet, bnd: Endpoint)
      modifies this`buffer, this`pc, this`n
      ensures pc == WritingReply(false) && buffer == Reply(rep, bnd) && n == 0
    {
      if rep != 0 {
        buffer := Resize(buffer, 10);
        FillReply(rep, 1, [0, 0, 0, 0], 0);
      } else if bnd.V4? {
        buffer := Resize(buffer, 10);
        FillReply(rep, 1, bnd.addr, bnd.port);
      } else {
        buffer := Resize(buffer, 22);
        FillReply(rep, 4, bnd.addr, bnd.port);
      }
      pc, n := WritingReply(false), 0;
    }

    method DoConnectReplyV4(rep: Octet, bnd: Endpoint)
      modifies this`buffer, this`pc, this`n
      ensures pc == WritingReply(true) && buffer == ReplyV4(rep, bnd) && n == 0
    {
      buffer := Resize(buffer, 8);
      Put(0, [4, rep]);
      if rep != 90 {
        Put(2, [0, 0]);
        Put(4, [0, 0, 0, 0]);
      } else {
        Put(2, [(bnd.port / 256) % 256, bnd.port % 256]);
        assert buffer[..4] == [4, rep] + PortOctets(bnd.port);
        if bnd.V4? { Put(4, bnd.addr); } else { Put(4, [0, 0, 0, 0]); }
      }
      pc, n := WritingReply(true), 0;
    }

    // ------------------------------------------------------------ after a write

    /** A `write_some` took `k` octets; when all are out, the handler of the composed write runs. */
    method OnWriteSome(k: nat, ec: ErrorCode)
      requires Valid() && pc.Writing() && n + k <= |buffer|
      modifies this
      ensures Valid() && State() == OnSent(old(State()), k, ec)
      ensures pc.Relaying? ==> Relays() && UpPipe() == DownPipe() == Relay.IDLE.(phase := Relay.Reading)
    {
      ReadFacts(ReadingUserpass, []);
      ReadFacts(ReadingConnect, []);
      if ec.Failed() { pc, n := Closed, 0; return; }
      n := n + k;
      if n < |buffer| { return; }
      match pc {
        case WritingChoice =>
          if serverChoice == 0xFF { pc, n := Closed, 0; }
          else if serverChoice == 2 {
            buffer := Resize(buffer, 513);
            pc, n := ReadingUserpass, 0;
          } else { DoReadConnectRequest(); }
        case WritingStatus => DoReadConnectRequest();
        case WritingReply(v4) =>
          var rep := buffer[1];
          if if v4 then (buffer[0] == 5 && rep == 0) || (buffer[0] == 4 && rep == 90) else rep == 0 {
            DoRelay();
          } else {
            pc, n := Closed, 0;
          }
      }
    }

    method DoReadConnectRequest()
      modifies this`buffer, this`pc, this`n
      ensures |buffer| == 263 && pc == ReadingConnect && n == 0
    {
      buffer := Resize(buffer, 263);
      pc, n := ReadingConnect, 0;
    }

    // ------------------------------------------------------------ relaying

    /** The direction from client to target, and the one back. */
    ghost function UpPipe(): Relay.Pipe
      reads this
    {
      Relay.Pipe(clientLoop, if clientLoop.Writing? then buffer else upLeft, fromClient, toTarget)
    }

    ghost function DownPipe(): Relay.Pipe
      reads this
    {
      Relay.Pipe(targetLoop, if targetLoop.Writing? then targetBuffer else downLeft, fromTarget, toClient)
    }

    /** Only a write that failed leaves octets over. */
    ghost predicate Relays()
      reads this
    {
      pc.Relaying? && (clientLoop.Ended? || upLeft == []) && (targetLoop.Ended? || downLeft == [])
    }

    method DoRelay()
      modifies this
      ensures Relays()
      ensures pc == Relaying && n == 0 && serverChoice == old(serverChoice) && target == old(target)
      ensures UpPipe() == DownPipe() == Relay.IDLE.(phase := Relay.Reading)
    {
      hide Resize, Stops, Limit;
      pc, n := Relaying, 0;
      buffer, targetBuffer := Resize(buffer, 1024), Resize(targetBuffer, 1024);
      clientLoop, targetLoop := Relay.Reading, Relay.Reading;
      fromClient, toTarget, upLeft := [], [], [];
      fromTarget, toClient, downLeft := [], [], [];
    }

    method OnClientData(data: seq<Octet>, ec: ErrorCode)
      requires Relays() && clientLoop.Reading? && |data| <= 1024
      modifies this`buffer, this`clientLoop, this`fromClient
      ensures Relays() && UpPipe() == Relay.OnRead(old(UpPipe()), data, ec) && DownPipe() == old(DownPipe())
    {
      if ec.Failed() { clientLoop := Relay.Ended; return; }
      buffer, clientLoop := data, Relay.Writing;
      fromClient := fromClient + data;
    }

    /** The count is not looked at: the loop reads on. */
    method OnTargetWritten(k: nat, ec: ErrorCode)
      requires Relays() && clientLoop.Writing? && k <= |buffer|
      modifies this`buffer, this`clientLoop, this`toTarget, this`upLeft
      ensures Relays() && UpPipe() == Relay.OnWritten(old(UpPipe()), k, ec) && DownPipe() == old(DownPipe())
    {
      toTarget := toTarget + buffer[..k];
      if ec.Failed() { clientLoop, upLeft := Relay.Ended, buffer[k..]; return; }
      buffer, clientLoop := Resize(buffer, 1024), Relay.Reading;
    }

    method OnTargetData(data: seq<Octet>, ec: ErrorCode)
      requires Relays() && targetLoop.Reading? && |data| <= 1024
      modifies this`targetBuffer, this`targetLoop, this`fromTarget
      ensures Relays() && DownPipe() == Relay.OnRead(old(DownPipe()), data, ec) && UpPipe() == old(UpPipe())
    {
      if ec.Failed() { targetLoop := Relay.Ended; return; }
      targetBuffer, targetLoop := data, Relay.Writing;
      fromTarget := fromTarget + data;
    }

    method OnClientWritten(k: nat, ec: ErrorCode)
      requires Relays() && targetLoop.Writing? && k <= |targetBuffer|
      modifies this`targetBuffer, this`targetLoop, this`toClient, this`downLeft
      ensures Relays() && DownPipe() == Relay.OnWritten(old(DownPipe()), k, ec) && UpPipe() == old(UpPipe())
    {
      toClient := toClient + targetBuffer[..k];
      if ec.Failed() { targetLoop, downLeft := Relay.Ended, targetBuffer[k..]; return; }
      targetBuffer, targetLoop := Resize(targetBuffer, 1024), Relay.Reading;
    }
  }
}
