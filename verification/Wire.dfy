/** The messages of SOCKS5 (RFC 1928, RFC 1929) and SOCKS4 as octet sequences: what each encoder has to
    leave in its buffer, and what each parser has to make of one. */
module Wire {
  import opened Octets

  // ---------------------------------------------------------------- messages of the client

  /** VER | NMETHODS | METHODS */
  function MethodList(methods: seq<Octet>): seq<Octet>
    requires |methods| <= 255
  {
    [5, |methods|] + methods
  }

  function Methods(opt: AuthOptions): (r: seq<Octet>)
    ensures |r| <= 255
  {
    if opt.Userpass? then [0x00, 0x02] else [0x00]
  }

  function Greeting(opt: AuthOptions): (r: seq<Octet>)
    ensures |r| == if opt.Userpass? then 4 else 3
  {
    MethodList(Methods(opt))
  }

  /** VER | IDLEN | ID | PWLEN | PW, with the PWLEN octet left open. */
  function UserpassMessage(user: seq<Octet>, pwlen: Octet, pass: seq<Octet>): seq<Octet>
    requires |user| <= 255
  {
    [1, |user|] + user + [pwlen] + pass
  }

  /** The request as written: PWLEN holds the length of the user name. */
  function UserpassRequest(opt: AuthOptions): (r: seq<Octet>)
    requires opt.Userpass? && opt.Valid()
    ensures |r| == |opt.user| + |opt.pass| + 3
  {
    UserpassMessage(opt.user, |opt.user|, opt.pass)
  }

  /** ATYP, and before a domain its length, cut to eight bits. */
  function HostHead(t: Target): seq<Octet> {
    match t
    case Ip(ep) => [if ep.V6? then 4 else 1]
    case Domain(name, _) => [3, |name| % 256]
  }

  function HostBody(t: Target): seq<Octet> { if t.Ip? then t.ep.addr else t.name }

  /** ATYP | DST.ADDR */
  function HostOctets(t: Target): seq<Octet> { HostHead(t) + HostBody(t) }

  function TargetPort(t: Target): Port { if t.Ip? then t.ep.port else t.port }

  /** VER | CMD | RSV | ATYP | DST.ADDR | DST.PORT */
  function Request(t: Target): (r: seq<Octet>)
    ensures |r| >= 6
  {
    [5, 1, 0] + HostOctets(t) + PortOctets(TargetPort(t))
  }

  /** `dst_addr_size(target) + 6`, the length `prepare_request` reports. */
  function RequestSize(t: Target): nat {
    match t
    case Ip(ep) => (if ep.V6? then 16 else 4) + 6
    case Domain(name, _) => 1 + |name| + 6
  }

  /** VER | CMD | DSTPORT | DSTIP | USERID | NUL */
  function RequestV4(ep: Endpoint, user: seq<Octet>): seq<Octet> {
    [4, 1] + PortOctets(ep.port) + ep.addr + user + [0]
  }

  // ---------------------------------------------------------------- messages of the server

  /** VER | REP | RSV | ATYP | BND.ADDR | BND.PORT; a failure carries a zero IPv4 endpoint. */
  function Reply(rep: Octet, bnd: Endpoint): (r: seq<Octet>)
    ensures |r| == 10 || |r| == 22
  {
    var ep: Endpoint := if rep == 0 then bnd else UNSPECIFIED;
    [5, rep, 0, if ep.V6? then 4 else 1] + ep.addr + PortOctets(ep.port)
  }

  /** VER | REP | DSTPORT | DSTIP; an IPv6 endpoint keeps only its port. */
  function ReplyV4(rep: Octet, bnd: Endpoint): (r: seq<Octet>)
    ensures |r| == 8
  {
    var ep: Endpoint := if rep == 90 then bnd else UNSPECIFIED;
    [4, rep] + PortOctets(ep.port) + if ep.V4? then ep.addr else [0, 0, 0, 0]
  }

  // ---------------------------------------------------------------- what the client makes of a reply

  datatype Decoded = Decoded(ec: ErrorCode, ep: Endpoint)

  /** `validate_server_choice`: `ec` is kept unless the octets are refused. */
  function ChoiceVerdict(b: seq<Octet>, code: Octet, ec: ErrorCode): ErrorCode {
    if |b| < 2 then BAD_REPLY_SIZE
    else if b[0] != 5 then BAD_REPLY_VERSION
    else if b[1] != code && b[1] != 0 then BAD_SERVER_CHOICE
    else ec
  }

  /** `validate_userpass_reply` */
  function UserpassVerdict(b: seq<Octet>, ec: ErrorCode): ErrorCode {
    if |b| != 2 then BAD_REPLY_SIZE
    else if b[0] != 1 then BAD_REPLY_VERSION
    else if b[1] != 0 then ACCESS_DENIED
    else ec
  }

  function ReplyCode(v: Octet): Octet { if v <= 8 then v else 0xFF }

  function DecodeReply(b: seq<Octet>): Decoded
    requires |b| == 10 || |b| == 22
  {
    if b[0] != 5 then Decoded(BAD_REPLY_VERSION, UNSPECIFIED)
    else if b[1] != 0 then Decoded(Socks(ReplyCode(b[1])), UNSPECIFIED)
    else if b[3] == 1 then
      if |b| != 10 then Decoded(BAD_REPLY_SIZE, UNSPECIFIED)
      else Decoded(Socks(0), V4(b[4..8], PortFrom(b[8], b[9])))
    else if b[3] == 4 then
      if |b| != 22 then Decoded(BAD_REPLY_SIZE, UNSPECIFIED)
      else Decoded(Socks(0), V6(b[4..20], PortFrom(b[20], b[21])))
    else Decoded(BAD_ADDRESS_TYPE, UNSPECIFIED)
  }

  function ReplyCodeV4(v: Octet): Octet { if 90 <= v <= 93 then v else 0xFF }

  /** As written: the address is taken from octets 3 to 6, where the format has it in 4 to 7. */
  function DecodeReplyV4(b: seq<Octet>): Decoded
    requires |b| == 8
  {
    if b[0] != 0 && b[0] != 4 then Decoded(BAD_REPLY_VERSION, UNSPECIFIED)
    else if b[1] != 90 then Decoded(Socks(ReplyCodeV4(b[1])), UNSPECIFIED)
    else Decoded(Socks(90), V4(b[3..7], PortFrom(b[2], b[3])))
  }

  /** A reply the client takes as success: its own ATYP fixes its length. */
  predicate Granted(b: seq<Octet>) {
    && (|b| == 10 || |b| == 22)
    && b[0] == 5 && b[1] == 0
    && b[3] == (if |b| == 10 then 1 else 4)
  }

  function GrantedEndpoint(b: seq<Octet>): Endpoint
    requires Granted(b)
  {
    if |b| == 10 then V4(b[4..8], PortFrom(b[8], b[9])) else V6(b[4..20], PortFrom(b[20], b[21]))
  }

  /** The reply decoder succeeds on exactly the granted replies; any failure yields the default endpoint. */
  lemma DecodeReplyGrants(b: seq<Octet>)
    requires |b| == 10 || |b| == 22
    ensures !DecodeReply(b).ec.Failed() <==> Granted(b)
    ensures DecodeReply(b) == if Granted(b) then Decoded(Socks(0), GrantedEndpoint(b))
                              else Decoded(DecodeReply(b).ec, UNSPECIFIED)
  {
  }

  // ---------------------------------------------------------------- what the server makes of a message

  /** The method the server picks: user/pass wherever it is listed, else none, else no acceptable method. */
  function Choose(methods: seq<Octet>): (r: Octet)
    ensures r == 2 <==> 2 in methods
    ensures r == 0 <==> 2 !in methods && 0 in methods
    ensures r == 2 || r == 0 || r == 0xFF
  {
    if 2 in methods then 2 else if 0 in methods then 0 else 0xFF
  }

  /** `parse_socks_greeting`: the choice, or nothing when NMETHODS and the octets received disagree. */
  function ParseGreeting(b: seq<Octet>): Option<Octet> {
    if |b| >= 2 && b[0] == 5 && b[1] == |b| - 2 then Some(Choose(b[2..])) else None
  }

  datatype Credentials = Credentials(user: seq<Octet>, pass: seq<Octet>)

  /** `parse_userpass_greeting`, with the offset at which the password view starts left open:
      the source uses 2 + IDLEN, RFC 1929 has the password at 3 + IDLEN. */
  function ParseUserpassAt(b: seq<Octet>, offset: nat): Option<Credentials>
    requires offset == 2 || offset == 3
  {
    if |b| < 2 || b[0] != 1 then None
    else
      var idlen: nat := b[1];
      if |b| < idlen + 3 then None
      else
        var passlen: nat := b[2 + idlen];
        if |b| < idlen + 3 + passlen then None
        else Some(Credentials(b[2..2 + idlen], b[offset + idlen..offset + idlen + passlen]))
  }

  datatype Parsed = Dial(ep: Endpoint) | Resolve(host: seq<Octet>, port: Port) | Refuse(rep: Octet)

  /** `parse_socks_connect`. The source indexes octet 4 of a domain request unconditionally; its callers
      have to make sure that the octet was received. */
  function ParseConnect(b: seq<Octet>): Parsed
    requires |b| > 0
    requires |b| == 4 && b[0] == 5 && b[1] == 1 && b[2] == 0 ==> b[3] != 3
  {
    if b[0] != 5 then Refuse(2)
    else if |b| == 1 then Refuse(2)
    else if b[1] != 1 then Refuse(7)
    else if |b| == 2 then Refuse(2)
    else if b[2] != 0 then Refuse(2)
    else if |b| == 3 then Refuse(2)
    else if b[3] == 1 then
      if |b| == 10 then Dial(V4(b[4..8], PortFrom(b[8], b[9]))) else Refuse(8)
    else if b[3] == 4 then
      if |b| == 22 then Dial(V6(b[4..20], PortFrom(b[20], b[21]))) else Refuse(8)
    else if b[3] == 3 then
      var len: nat := b[4];
      if |b| == 7 + len then Resolve(b[5..5 + len], PortFrom(b[|b| - 2], b[|b| - 1])) else Refuse(8)
    else Refuse(8)
  }

  /** `parse_socks_connect_v4`: the endpoint to dial, or nothing when the request is refused with 91. */
  function ParseConnectV4(b: seq<Octet>): Option<Endpoint>
    requires |b| > 0
  {
    if b[0] == 4 && |b| >= 8 && b[1] == 1 then Some(V4(b[4..8], PortFrom(b[2], b[3]))) else None
  }
}
