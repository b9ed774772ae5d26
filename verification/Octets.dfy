/** The values the protocol engine passes around: octets, endpoints, options and error codes. */
module Octets {

  type Octet = x: int | 0 <= x < 256
  type Port = x: int | 0 <= x < 0x1_0000

  datatype Option<+T> = None | Some(value: T)

  /** `asio::ip::tcp::endpoint`: address octets in network order, and a port. */
  datatype IpEndpoint = V4(addr: seq<Octet>, port: Port) | V6(addr: seq<Octet>, port: Port) {
    predicate Valid() { |addr| == if V4? then 4 else 16 }
  }
  type Endpoint = e: IpEndpoint | e.Valid() witness V4([0, 0, 0, 0], 0)

  /** A default-constructed endpoint, which every failing operation returns. */
  const UNSPECIFIED: Endpoint := V4([0, 0, 0, 0], 0)

  /** What the client asks for: an endpoint, or a domain name that the proxy resolves. */
  datatype Target = Ip(ep: Endpoint) | Domain(name: seq<Octet>, port: Port)

  /** `auth_options`; `Code` is the method octet offered besides 0x00. */
  datatype AuthOptions = NoAuth | Userpass(user: seq<Octet>, pass: seq<Octet>) {
    function Code(): Octet { if Userpass? then 0x02 else 0x00 }

    /** What the encoders assert about the credentials (RFC 1929 gives each length one octet). */
    predicate Valid() { Userpass? ==> |user| <= 255 && |pass| <= 255 }
  }

  /** `boost::system::error_code`: no error, end of file, another I/O error, or a value of `socks::error`. */
  datatype ErrorCode = Success | Eof | System(code: nat) | Socks(value: nat) {
    /** The socks category counts 0 and 90 (request granted) as no failure. */
    predicate Failed() {
      match this
      case Success => false
      case Eof => true
      case System(_) => true
      case Socks(v) => v != 0 && v != 90
    }
  }

  const BAD_REPLY_SIZE: ErrorCode := Socks(0xA0)
  const BAD_REPLY_VERSION: ErrorCode := Socks(0xA1)
  const BAD_SERVER_CHOICE: ErrorCode := Socks(0xA2)
  const BAD_ADDRESS_TYPE: ErrorCode := Socks(0xA5)
  const ACCESS_DENIED: ErrorCode := Socks(0xA6)

  function Min(a: nat, b: nat): nat { if a <= b then a else b }

  /** The two octets of a port, high octet first. */
  function PortOctets(p: Port): (r: seq<Octet>)
    ensures |r| == 2
  {
    [p / 256, p % 256]
  }

  function PortFrom(hi: Octet, lo: Octet): Port { hi * 256 + lo }

  /** Messages one after another on the wire. */
  function Joined(msgs: seq<seq<Octet>>): seq<Octet> {
    if msgs == [] then [] else Joined(msgs[..|msgs| - 1]) + msgs[|msgs| - 1]
  }

  lemma JoinedMore(msgs: seq<seq<Octet>>, m: seq<Octet>)
    ensures Joined(msgs + [m]) == Joined(msgs) + m
  {
  }

  lemma JoinedFew(a: seq<Octet>, b: seq<Octet>, c: seq<Octet>)
    ensures Joined([a]) == a && Joined([a, b]) == a + b && Joined([a, b, c]) == a + b + c
  {
    assert [a][..0] == [] && [a, b][..1] == [a] && [a, b, c][..2] == [a, b];
  }

  /** Octets that were written behind `base + p[..a]`, up to `b`. */
  lemma Advance(w: seq<Octet>, base: seq<Octet>, p: seq<Octet>, a: nat, b: nat)
    requires a <= b <= |p| && w == base + p[..a]
    ensures w + p[a..b] == base + p[..b]
    ensures b == |p| ==> w + p[a..b] == base + p
  {
  }
}
