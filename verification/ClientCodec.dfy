/** The client's encoders and parsers as they are written: they fill a buffer in place, and accumulate
    addresses and ports by shifts. */
module ClientCodec {
  import opened Octets
  import opened Wire

  /** The loop `for (auto c : s) buffer[i++] = c`. */
  method PutAll(buffer: array<Octet>, at: nat, s: seq<Octet>) returns (i: nat)
    requires at + |s| <= buffer.Length
    modifies buffer
    ensures i == at + |s| && buffer[..i] == old(buffer[..at]) + s && buffer[i..] == old(buffer[i..])
  {
    i := at;
    for k := 0 to |s|
      invariant i == at + k
      invariant buffer[..i] == old(buffer[..at]) + s[..k]
      invariant buffer[i..] == old(buffer[i..])
    {
      buffer[i] := s[k];
      i := i + 1;
    }
  }

  method PrepareMethods(buffer: array<Octet>, methods: seq<Octet>) returns (n: nat)
    requires |methods| <= 255 && 2 + |methods| <= buffer.Length
    modifies buffer
    ensures n == 2 + |methods| && buffer[..n] == MethodList(methods) && buffer[n..] == old(buffer[n..])
  {
    buffer[0], buffer[1] := 5, |methods|;
    assert buffer[..2] == [5, |methods|];
    n := PutAll(buffer, 2, methods);
  }

  method PrepareGreeting(buffer: array<Octet>, opt: AuthOptions) returns (n: nat)
    requires 4 <= buffer.Length
    modifies buffer
    ensures n == |Greeting(opt)| && buffer[..n] == Greeting(opt) && buffer[n..] == old(buffer[n..])
  {
    if opt.Code() != 0x00 {
      n := PrepareMethods(buffer, [0x00, opt.Code()]);
    } else {
      n := PrepareMethods(buffer, [0x00]);
    }
  }

  method PrepareUserpassRequest(buffer: array<Octet>, opt: AuthOptions) returns (n: nat)
    requires opt.Userpass? && opt.Valid() && |opt.user| + |opt.pass| + 3 <= buffer.Length
    modifies buffer
    ensures n == |opt.user| + |opt.pass| + 3 && buffer[..n] == UserpassRequest(opt)
    ensures buffer[n..] == old(buffer[n..])
  {
    buffer[0], buffer[1] := 1, |opt.user|;
    assert buffer[..2] == [1, |opt.user|];
    n := PutAll(buffer, 2, opt.user);
    buffer[n] := |opt.user|;
    n := n + 1;
    assert buffer[..n] == [1, |opt.user|] + opt.user + [|opt.user|];
    n := PutAll(buffer, n, opt.pass);
  }

  /** ATYP and DST.ADDR, from octet `at` on. */
  method PutHost(buffer: array<Octet>, at: nat, t: Target) returns (i: nat)
    requires at + |HostOctets(t)| <= buffer.Length
    modifies buffer
    ensures i == at + |HostOctets(t)| && buffer[..i] == old(buffer[..at]) + HostOctets(t)
    ensures buffer[i..] == old(buffer[i..])
  {
    match t {
      case Ip(ep) => i := PutAll(buffer, at, [if ep.V6? then 4 else 1]);
      case Domain(name, _) => i := PutAll(buffer, at, [3, |name| % 256]);
    }
    i := PutAll(buffer, i, HostBody(t));
  }

  /** `write_target_host` into the buffer from octet `at` on. */
  method WriteTargetHost(buffer: array<Octet>, at: nat, t: Target) returns (n: nat)
    requires at + |HostOctets(t)| + 2 <= buffer.Length
    modifies buffer
    ensures n == |HostOctets(t)| + 2
    ensures buffer[..at + n] == old(buffer[..at]) + HostOctets(t) + PortOctets(TargetPort(t))
    ensures buffer[at + n..] == old(buffer[at + n..])
  {
    var i := PutHost(buffer, at, t);
    var port := TargetPort(t);
    buffer[i], buffer[i + 1] := port / 256, port % 256;
    n := i + 2 - at;
  }

  /** `prepare_request`: the length it returns is computed apart from what the loops write. */
  method PrepareRequest(buffer: array<Octet>, t: Target) returns (n: nat)
    requires RequestSize(t) <= buffer.Length
    modifies buffer
    ensures n == RequestSize(t) && buffer[..n] == Request(t) && buffer[n..] == old(buffer[n..])
  {
    buffer[0], buffer[1], buffer[2] := 5, 1, 0;
    assert buffer[..3] == [5, 1, 0];
    var written := WriteTargetHost(buffer, 3, t);
    n := match t case Ip(ep) => (if ep.V6? then 16 else 4) + 6 case Domain(name, _) => 1 + |name| + 6;
  }

  method ValidateServerChoice(buffer: array<Octet>, n: nat, opt: AuthOptions, ec0: ErrorCode)
    returns (ec: ErrorCode)
    requires n <= buffer.Length
    ensures ec == ChoiceVerdict(buffer[..n], opt.Code(), ec0)
  {
    ec := ec0;
    if n < 2 { ec := BAD_REPLY_SIZE; }
    else if buffer[0] != 5 { ec := BAD_REPLY_VERSION; }
    else if buffer[1] != opt.Code() && buffer[1] != 0 { ec := BAD_SERVER_CHOICE; }
  }

  method ValidateUserpassReply(buffer: array<Octet>, n: nat, ec0: ErrorCode) returns (ec: ErrorCode)
    requires n <= buffer.Length
    ensures ec == UserpassVerdict(buffer[..n], ec0)
  {
    ec := ec0;
    if n != 2 { ec := BAD_REPLY_SIZE; }
    else if buffer[0] != 1 { ec := BAD_REPLY_VERSION; }
    else if buffer[1] != 0 { ec := ACCESS_DENIED; }
  }

  /** `(acc << 8) | b` on a 32-bit and on a 16-bit unsigned integer. */
  function ShiftIn32(acc: nat, b: Octet): nat { (acc * 256) % 0x1_0000_0000 + b }
  function ShiftIn16(acc: nat, b: Octet): nat { (acc * 256) % 0x1_0000 + b }

  /** `asio::ip::make_address_v4(uint_type)`: the octets of a 32-bit address, high octet first. */
  function AddressOctets(ip: nat): (r: seq<Octet>)
    requires ip < 0x1_0000_0000
    ensures |r| == 4
  {
    [ip / 0x100_0000, (ip / 0x1_0000) % 256, (ip / 0x100) % 256, ip % 256]
  }

  /** Four shifts put the first octet highest, whatever the octets are. */
  lemma ShiftedAddress(a: Octet, b: Octet, c: Octet, d: Octet)
    ensures var ip := ShiftIn32(ShiftIn32(ShiftIn32(a, b), c), d);
            ip < 0x1_0000_0000 && AddressOctets(ip) == [a, b, c, d]
  {
    var ip := ShiftIn32(ShiftIn32(ShiftIn32(a, b), c), d);
    assert ip == 0x100_0000 * a + 0x1_0000 * b + 0x100 * c + d;
    assert ip / 0x100_0000 == a && ip / 0x1_0000 == 256 * a + b && ip / 0x100 == 0x1_0000 * a + 256 * b + c;
  }

  method ReadAddressV4(buffer: array<Octet>, at: nat) returns (addr: seq<Octet>)
    requires at + 4 <= buffer.Length
    ensures |addr| == 4 && addr == buffer[at..at + 4]
  {
    var ip: nat := buffer[at];
    ip := ShiftIn32(ip, buffer[at + 1]);
    ip := ShiftIn32(ip, buffer[at + 2]);
    ip := ShiftIn32(ip, buffer[at + 3]);
    ShiftedAddress(buffer[at], buffer[at + 1], buffer[at + 2], buffer[at + 3]);
    addr := AddressOctets(ip);
  }

  method ReadPort(buffer: array<Octet>, at: nat) returns (port: Port)
    requires at + 2 <= buffer.Length
    ensures port == PortFrom(buffer[at], buffer[at + 1])
  {
    var p: nat := buffer[at];
    port := ShiftIn16(p, buffer[at + 1]);
  }

  method ParseReplyV5(buffer: array<Octet>, n: nat) returns (ec: ErrorCode, ep: Endpoint)
    requires (n == 10 || n == 22) && n <= buffer.Length
    ensures Decoded(ec, ep) == DecodeReply(buffer[..n])
  {
    ep := UNSPECIFIED;
    if buffer[0] != 5 { ec := BAD_REPLY_VERSION; return; }
    ec := Socks(ReplyCode(buffer[1]));
    if ec != Socks(0) { return; }
    if buffer[3] == 1 {
      if n != 10 { ec := BAD_REPLY_SIZE; return; }
      var addr := ReadAddressV4(buffer, 4);
      var port := ReadPort(buffer, 8);
      ep := V4(addr, port);
      assert buffer[..n][4..8] == addr;
    } else if buffer[3] == 4 {
      if n != 22 { ec := BAD_REPLY_SIZE; return; }
      var port := ReadPort(buffer, 20);
      ep := V6(buffer[4..20], port);
      assert buffer[..n][4..20] == buffer[4..20];
    } else {
      ec := BAD_ADDRESS_TYPE;
    }
  }

  method PrepareRequestV4(buffer: array<Octet>, ep: Endpoint, user: seq<Octet>) returns (n: nat)
    requires ep.V4? && 9 + |user| <= buffer.Length
    modifies buffer
    ensures n == 9 + |user| && buffer[..n] == RequestV4(ep, user) && buffer[n..] == old(buffer[n..])
  {
    buffer[0], buffer[1] := 4, 1;
    buffer[2], buffer[3] := ep.port / 256, ep.port % 256;
    buffer[4], buffer[5], buffer[6], buffer[7] := ep.addr[0], ep.addr[1], ep.addr[2], ep.addr[3];
    assert buffer[..8] == [4, 1] + PortOctets(ep.port) + ep.addr;
    for i := 0 to |user|
      invariant buffer[..8 + i] == [4, 1] + PortOctets(ep.port) + ep.addr + user[..i]
      invariant buffer[9 + |user|..] == old(buffer[9 + |user|..])
    {
      buffer[8 + i] := user[i];
    }
    buffer[8 + |user|] := 0;
    n := 9 + |user|;
  }

  /** As written: the address starts at octet 3, one before the format's. */
  method ParseReplyV4(buffer: array<Octet>) returns (ec: ErrorCode, ep: Endpoint)
    requires 8 <= buffer.Length
    ensures Decoded(ec, ep) == DecodeReplyV4(buffer[..8])
  {
    ep := UNSPECIFIED;
    if buffer[0] != 0 && buffer[0] != 4 { ec := BAD_REPLY_VERSION; return; }
    ec := Socks(ReplyCodeV4(buffer[1]));
    if ec != Socks(90) { return; }
    var port := ReadPort(buffer, 2);
    var addr := ReadAddressV4(buffer, 3);
    ep := V4(addr, port);
    assert buffer[..8][3..7] == addr;
  }
}
