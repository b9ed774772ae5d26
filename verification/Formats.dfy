/** The messages field by field, and the parsers as exact inverses of the encoders: each accepts the messages of
    its kind and nothing else. */
module Formats {
  import opened Octets
  import opened Wire
  import opened RoundTrips

  // ---------------------------------------------------------------- fields

  /** Two octets as a number, high octet first. */
  predicate Number16(b: seq<Octet>, at: nat, n: int)
    requires at + 2 <= |b|
  {
    var hi: int := b[at];
    n == 256 * hi + b[at + 1]
  }

  /** VER 05, NMETHODS, and the methods in this order: none, then user/pass if it is offered. */
  lemma GreetingFields(opt: AuthOptions)
    ensures Greeting(opt) == if opt.Userpass? then [5, 2, 0, 2] else [5, 1, 0]
  {
  }

  /** VER 01, the user name with its length, the password behind an octet that holds the same length. */
  lemma UserpassFields(opt: AuthOptions)
    requires opt.Userpass? && opt.Valid()
    ensures var m, u := UserpassRequest(opt), |opt.user|;
            && |m| == 3 + u + |opt.pass|
            && m[0] == 1 && m[1] == u && m[2..2 + u] == opt.user && m[2 + u] == u && m[3 + u..] == opt.pass
  {
    var m, u := UserpassRequest(opt), |opt.user|;
    assert m[2..2 + u] == opt.user;
    assert m[3 + u..] == opt.pass;
  }

  /** VER 05, CMD 01, RSV 00, ATYP, address or counted name, port. */
  lemma RequestFields(t: Target)
    ensures var m := Request(t);
            && m[0] == 5 && m[1] == 1 && m[2] == 0 && Number16(m, |m| - 2, TargetPort(t))
            && match t
               case Ip(V4(addr, _)) => |m| == 10 && m[3] == 1 && m[4..8] == addr
               case Ip(V6(addr, _)) => |m| == 22 && m[3] == 4 && m[4..20] == addr
               case Domain(name, _) =>
                 |m| == 7 + |name| && m[3] == 3 && m[4] == |name| % 256 && m[5..5 + |name|] == name
  {
    RequestLayout(t);
    var m := Request(t);
    assert m[0] == m[..3][0] && m[1] == m[..3][1] && m[2] == m[..3][2];
    assert m[|m| - 2] == m[|m| - 2..][0] && m[|m| - 1] == m[|m| - 2..][1];
  }

  /** VER 05, REP, RSV 00, ATYP, the bound endpoint; all of it zero in a refusal. */
  lemma ReplyFields(rep: Octet, bnd: Endpoint)
    ensures rep != 0 ==> Reply(rep, bnd) == [5, rep, 0, 1, 0, 0, 0, 0, 0, 0]
    ensures rep == 0 ==>
              var m := Reply(rep, bnd);
              && m[..3] == [5, 0, 0] && Number16(m, |m| - 2, bnd.port)
              && (if bnd.V4? then |m| == 10 && m[3] == 1 && m[4..8] == bnd.addr
                  else |m| == 22 && m[3] == 4 && m[4..20] == bnd.addr)
  {
    if rep == 0 {
      var m := Reply(rep, bnd);
      assert m[|m| - 2..] == PortOctets(bnd.port);
      assert m[|m| - 2] == m[|m| - 2..][0] && m[|m| - 1] == m[|m| - 2..][1];
      assert m[4..|m| - 2] == bnd.addr;
    }
  }

  /** VER 04, CMD 01, port, address, user id, NUL. */
  lemma RequestV4Fields(ep: Endpoint, user: seq<Octet>)
    requires ep.V4?
    ensures var m := RequestV4(ep, user);
            && |m| == 9 + |user| && m[0] == 4 && m[1] == 1 && Number16(m, 2, ep.port)
            && m[4..8] == ep.addr && m[8..8 + |user|] == user && m[8 + |user|] == 0
  {
    var m := RequestV4(ep, user);
    assert m[2..4] == PortOctets(ep.port);
    assert m[2] == m[2..4][0] && m[3] == m[2..4][1];
    assert m[8..8 + |user|] == user;
  }

  /** VER 04, CD, port, address; all zero in a refusal, and a zero address for one of IPv6. */
  lemma ReplyV4Fields(rep: Octet, bnd: Endpoint)
    ensures rep != 90 ==> ReplyV4(rep, bnd) == [4, rep, 0, 0, 0, 0, 0, 0]
    ensures rep == 90 ==>
              var m := ReplyV4(rep, bnd);
              && |m| == 8 && m[0] == 4 && m[1] == 90 && Number16(m, 2, bnd.port)
              && m[4..8] == if bnd.V4? then bnd.addr else [0, 0, 0, 0]
  {
    if rep == 90 {
      var m := ReplyV4(rep, bnd);
      assert m[2..4] == PortOctets(bnd.port);
      assert m[2] == m[2..4][0] && m[3] == m[2..4][1];
    }
  }

  // ---------------------------------------------------------------- the user id

  /** How many octets from `at` on come before the first NUL, or the end. */
  function Length(b: seq<Octet>, at: nat): (n: nat)
    requires at <= |b|
    ensures at + n <= |b|
    decreases |b| - at
  {
    if at == |b| || b[at] == 0 then 0 else 1 + Length(b, at + 1)
  }

  /** What a reader of the USERID field takes: the octets from 8 up to the first NUL. */
  function UserId(b: seq<Octet>): seq<Octet>
    requires 8 <= |b|
  {
    b[8..8 + Length(b, 8)]
  }

  lemma {:induction false} LengthStops(b: seq<Octet>, at: nat)
    requires at <= |b|
    ensures 0 !in b[at..at + Length(b, at)] && (at + Length(b, at) < |b| ==> b[at + Length(b, at)] == 0)
    decreases |b| - at
  {
    if at < |b| && b[at] != 0 {
      LengthStops(b, at + 1);
      assert b[at..at + Length(b, at)] == [b[at]] + b[at + 1..at + Length(b, at)];
    }
  }

  /** The user id goes out as given, and is read back exactly if it has no NUL of its own. */
  lemma UserIdRoundTrip(ep: Endpoint, user: seq<Octet>)
    requires ep.V4?
    ensures 8 <= |RequestV4(ep, user)| && (UserId(RequestV4(ep, user)) == user <==> 0 !in user)
    ensures UserId(RequestV4(ep, user)) <= user
  {
    var m := RequestV4(ep, user);
    RequestV4Fields(ep, user);
    LengthStops(m, 8);
    var n := Length(m, 8);
    assert forall i | 8 <= i < 8 + n :: m[i] == m[8..8 + n][i - 8];
    assert m[8..8 + n] == user[..n];
    if n < |user| { assert user[n] == m[8..8 + |user|][n] == 0; }
  }

  // ---------------------------------------------------------------- exact inverses

  /** The server takes an endpoint or a name from exactly the requests that ask for it. */
  lemma ParsedExactly(b: seq<Octet>, t: Target)
    requires |b| > 0 && (|b| == 4 && b[0] == 5 && b[1] == 1 && b[2] == 0 ==> b[3] != 3)
    ensures ParseConnect(b) == Wanted(t) <==> b == Request(t) && Expressible(t)
  {
    hide Request, ParseConnect;
    if b == Request(t) { RequestRoundTrip(t); }
    if ParseConnect(b) == Wanted(t) {
      LongEnough(b);
      match t {
        case Ip(ep) => DialledFrom(b, ep);
        case Domain(name, port) => ResolvedFrom(b, name, port);
      }
    }
  }

  lemma LongEnough(b: seq<Octet>)
    requires |b| > 0 && (|b| == 4 && b[0] == 5 && b[1] == 1 && b[2] == 0 ==> b[3] != 3)
    ensures !ParseConnect(b).Refuse? ==> |b| >= 7
  {
  }

  /** A request is its fields one after another. */
  lemma Fields(b: seq<Octet>, head: seq<Octet>, kind: seq<Octet>, body: seq<Octet>, port: seq<Octet>)
    requires |b| == |head| + |kind| + |body| + |port|
    requires b[..|head|] == head && b[|head|..|head| + |kind|] == kind
    requires b[|head| + |kind|..|b| - |port|] == body && b[|b| - |port|..] == port
    ensures b == head + (kind + body) + port
  {
    assert b == b[..|head|] + b[|head|..|b| - |port|] + b[|b| - |port|..];
    assert b[|head|..|b| - |port|] == b[|head|..|head| + |kind|] + b[|head| + |kind|..|b| - |port|];
  }

  lemma DialledFrom(b: seq<Octet>, ep: Endpoint)
    requires |b| > 4 && ParseConnect(b) == Dial(ep)
    ensures b == Request(Ip(ep))
  {
    Fields(b, [5, 1, 0], HostHead(Ip(ep)), ep.addr, PortOctets(ep.port));
  }

  lemma ResolvedFrom(b: seq<Octet>, name: seq<Octet>, port: Port)
    requires |b| > 4 && ParseConnect(b) == Resolve(name, port)
    ensures b == Request(Domain(name, port)) && |name| <= 255
  {
    Fields(b, [5, 1, 0], HostHead(Domain(name, port)), name, PortOctets(port));
  }

  /** The SOCKS4 server dials what stands in the first eight octets, if these begin a CONNECT request. */
  lemma ParsedV4Exactly(b: seq<Octet>, ep: Endpoint)
    requires |b| > 0
    ensures ParseConnectV4(b) == Some(ep) <==> ep.V4? && 8 <= |b| && b[..8] == RequestV4(ep, [])[..8]
  {
    if ep.V4? {
      RequestV4Fields(ep, []);
      var m := RequestV4(ep, []);
      if 8 <= |b| && b[..8] == m[..8] {
        assert forall i | 0 <= i < 8 :: b[i] == b[..8][i] == m[i];
        assert b[4..8] == m[4..8];
      }
      if ParseConnectV4(b) == Some(ep) {
        assert b[4..8] == m[4..8];
        assert forall i | 4 <= i < 8 :: b[i] == b[4..8][i - 4] == m[i];
      }
    }
  }

  /** A greeting is accepted exactly if it is a list of methods; then the choice is 2 if listed, else 0 if
      listed, else 0xFF. */
  lemma GreetingParsedExactly(b: seq<Octet>)
    ensures ParseGreeting(b).Some? <==> 2 <= |b| && b[0] == 5 && b[1] == |b| - 2
    ensures ParseGreeting(b).Some? ==>
              b == MethodList(b[2..])
              && ParseGreeting(b).value == if 2 in b[2..] then 2 else if 0 in b[2..] then 0 else 0xFF
  {
  }

  /** A sequence is made of these fields exactly if they stand one after another in it. */
  lemma FourFields(b: seq<Octet>, a: seq<Octet>, x: seq<Octet>, y: seq<Octet>, z: seq<Octet>)
    ensures b == a + x + y + z <==>
              && |b| == |a| + |x| + |y| + |z| && b[..|a|] == a && b[|a|..|a| + |x|] == x
              && b[|a| + |x|..|a| + |x| + |y|] == y && b[|a| + |x| + |y|..] == z
  {
    var i, j, k := |a|, |a| + |x|, |a| + |x| + |y|;
    if |b| == k + |z| { assert b == b[..i] + b[i..j] + b[j..k] + b[k..]; }
    var m := a + x + y + z;
    assert m[..i] == a && m[i..j] == x && m[j..k] == y && m[k..] == z;
  }

  /** A reader at RFC 1929's offset accepts exactly what begins with a message whose PWLEN is the password's
      length; the offset at which the password is taken does not decide on acceptance. */
  lemma UserpassParsedExactly(b: seq<Octet>, user: seq<Octet>, pass: seq<Octet>)
    requires |user| <= 255 && |pass| <= 255
    ensures ParseUserpassAt(b, 3) == Some(Credentials(user, pass)) <==> UserpassMessage(user, |pass|, pass) <= b
    ensures ParseUserpassAt(b, 2).Some? <==> ParseUserpassAt(b, 3).Some?
  {
    var u, n := |user|, 3 + |user| + |pass|;
    if n <= |b| {
      var m := b[..n];
      FourFields(m, [1, u], user, [|pass|], pass);
      assert UserpassMessage(user, |pass|, pass) <= b <==> UserpassMessage(user, |pass|, pass) == m;
      assert m[2..2 + u] == b[2..2 + u] && m[3 + u..] == b[3 + u..n];
      assert m[..2] == [b[0], b[1]] && m[2 + u..3 + u] == [b[2 + u]];
    }
  }

  /** A reply is a success for the client exactly if it is the server's success reply, but for the reserved
      octet, at which nobody looks. */
  lemma ReplyParsedExactly(b: seq<Octet>, ep: Endpoint)
    requires |b| == 10 || |b| == 22
    ensures DecodeReply(b) == Decoded(Socks(0), ep) <==> b == Reply(0, ep)[2 := b[2]]
  {
    var m, n := Reply(0, ep), |b|;
    if b == m[2 := b[2]] {
      ReplyRoundTrip(0, ep);
      assert b[4..n - 2] == m[4..n - 2];
    }
    if DecodeReply(b) == Decoded(Socks(0), ep) {
      assert b[..4] == [5, 0, b[2], if ep.V6? then 4 else 1];
      assert b[4..n - 2] == ep.addr && b[n - 2..] == PortOctets(ep.port);
      hide DecodeReply;
      assert b == b[..4] + b[4..n - 2] + b[n - 2..];
    }
  }

  // ---------------------------------------------------------------- refusals

  /** Why the server refuses a request: the first field that is wrong or missing decides. 2 for VER, RSV and a
      missing field, 7 for another CMD, 8 for another ATYP or a length that does not fit. */
  lemma RefusesElse(b: seq<Octet>)
    requires |b| > 0 && (|b| == 4 && b[0] == 5 && b[1] == 1 && b[2] == 0 ==> b[3] != 3)
    ensures ParseConnect(b).Refuse? <==> forall t | Expressible(t) :: b != Request(t)
    ensures ParseConnect(b).Refuse? ==>
              ParseConnect(b).rep == if b[0] != 5 then 2
                                     else if |b| > 1 && b[1] != 1 then 7
                                     else if |b| < 3 || b[2] != 0 || |b| < 4 then 2
                                     else 8
  {
    hide Request;
    LongEnough(b);
    forall t | Expressible(t) && b == Request(t) ensures !ParseConnect(b).Refuse? { RequestRoundTrip(t); }
    match ParseConnect(b) {
      case Dial(ep) => DialledFrom(b, ep); assert b == Request(Ip(ep)) && Expressible(Ip(ep));
      case Resolve(h, p) => ResolvedFrom(b, h, p); assert b == Request(Domain(h, p)) && Expressible(Domain(h, p));
      case Refuse(_) =>
    }
  }
}
