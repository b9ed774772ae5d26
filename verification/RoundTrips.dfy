/** Round trips between the encoders of one side and the parsers of the other. */
module RoundTrips {
  import opened Octets
  import opened Wire

  // ---------------------------------------------------------------- SOCKS5 CONNECT

  /** What the server should do with a request for `t`. */
  function Wanted(t: Target): Parsed {
    match t
    case Ip(ep) => Dial(ep)
    case Domain(name, port) => Resolve(name, port)
  }

  /** The request names its own length and is understood as meant. */
  predicate Expressible(t: Target) { t.Domain? ==> |t.name| <= 255 }

  /** What a server reading octet by octet takes from the request: past 255 octets the length octet wraps,
      and the port is taken from the middle of the name. */
  function Heard(t: Target): Parsed {
    if Expressible(t) then Wanted(t)
    else
      var m := |t.name| % 256;
      Resolve(t.name[..m], PortFrom(t.name[m], t.name[m + 1]))
  }

  /** The length the server works out from the request's first octets. */
  function HeardSize(t: Target): nat {
    if t.Domain? then 7 + |t.name| % 256 else RequestSize(t)
  }

  /** The octets of a request at the positions the parsers look at. */
  lemma RequestLayout(t: Target)
    ensures |Request(t)| == RequestSize(t) >= 7
    ensures HeardSize(t) <= RequestSize(t)
    ensures Request(t)[..3] == [5, 1, 0]
    ensures t.Ip? ==> Request(t)[3] == (if t.ep.V6? then 4 else 1)
    ensures t.Ip? ==> Request(t)[4..4 + |t.ep.addr|] == t.ep.addr
    ensures t.Domain? ==> Request(t)[3] == 3 && Request(t)[4] == |t.name| % 256
    ensures t.Domain? ==> Request(t)[5..5 + |t.name|] == t.name
    ensures Request(t)[|Request(t)| - 2..] == PortOctets(TargetPort(t))
  {
  }

  /** A server that accepts any leading piece of a request has read exactly the length it works out, and
      takes the target from it that was asked for, unless the length octet has wrapped. */
  lemma RequestHeard(t: Target, q: seq<Octet>)
    requires 4 < |q| && q <= Request(t)
    ensures !ParseConnect(q).Refuse? <==> |q| == HeardSize(t)
    ensures |q| == HeardSize(t) ==> ParseConnect(q) == Heard(t)
  {
    RequestLayout(t);
    var r := Request(t);
    assert q == r[..|q|];
    assert q[..3] == r[..3];
    assert q[0] == q[..3][0] && q[1] == q[..3][1] && q[2] == q[..3][2];
    if |q| == HeardSize(t) {
      if t.Ip? { IpHeard(t); } else { DomainHeard(t); }
    }
  }

  lemma IpHeard(t: Target)
    requires t.Ip?
    ensures ParseConnect(Request(t)) == Dial(t.ep)
  {
  }

  lemma DomainHeard(t: Target)
    requires t.Domain?
    ensures ParseConnect(Request(t)[..HeardSize(t)]) == Heard(t)
  {
    RequestLayout(t);
    var r, n := Request(t), RequestSize(t);
    var m: nat := |t.name| % 256;
    var q := r[..7 + m];
    assert q[..3] == r[..3];
    assert q[0] == q[..3][0] && q[1] == q[..3][1] && q[2] == q[..3][2];
    assert q[5..5 + m] == r[5..5 + |t.name|][..m];
    if Expressible(t) {
      assert r[n - 2] == r[n - 2..][0] && r[n - 1] == r[n - 2..][1];
    } else {
      assert q[5 + m] == r[5..5 + |t.name|][m] && q[6 + m] == r[5..5 + |t.name|][m + 1];
    }
  }

  /** The CONNECT round trip holds for every endpoint and exactly the domains of at most 255 octets; the
      length reported by `prepare_request` is the number of octets written. */
  lemma RequestRoundTrip(t: Target)
    ensures |Request(t)| == RequestSize(t)
    ensures ParseConnect(Request(t)) == Wanted(t) <==> Expressible(t)
    ensures !Expressible(t) ==> ParseConnect(Request(t)) == Refuse(8)
  {
    RequestLayout(t);
    RequestHeard(t, Request(t));
  }

  /** The server's reply, read back by the client: its bound endpoint, or its reply code. */
  lemma ReplyRoundTrip(rep: Octet, bnd: Endpoint)
    ensures DecodeReply(Reply(rep, bnd)) == if rep == 0 then Decoded(Socks(0), bnd)
                                            else Decoded(Socks(ReplyCode(rep)), UNSPECIFIED)
    ensures Granted(Reply(rep, bnd)) <==> rep == 0
    ensures Reply(rep, bnd)[3] == (if |Reply(rep, bnd)| == 10 then 1 else 4)
  {
  }

  // ---------------------------------------------------------------- negotiation

  /** The server chooses from the list that was sent, and the client accepts exactly its own list. */
  lemma NegotiationAgreement(opt: AuthOptions, choice: Octet)
    ensures ParseGreeting(Greeting(opt)) == Some(opt.Code())
    ensures ChoiceVerdict([5, choice], opt.Code(), Success) == Success <==> choice in Methods(opt)
  {
  }

  /** Whatever list is sent, the choice is on it or is 0xFF, and 0xFF only when neither method is listed. */
  lemma ChoiceFromList(methods: seq<Octet>)
    requires |methods| <= 255
    ensures ParseGreeting(MethodList(methods)).Some?
    ensures var c := ParseGreeting(MethodList(methods)).value;
            if 2 in methods then c == 2 else if 0 in methods then c == 0 else c == 0xFF
  {
  }

  // ---------------------------------------------------------------- user name and password

  /** With PWLEN holding the password's length and the password read behind it, both are recovered. */
  lemma UserpassRoundTripIntended(user: seq<Octet>, pass: seq<Octet>)
    requires |user| <= 255 && |pass| <= 255
    ensures ParseUserpassAt(UserpassMessage(user, |pass|, pass), 3) == Some(Credentials(user, pass))
  {
    var m, u := UserpassMessage(user, |pass|, pass), |user|;
    assert m[2..2 + u] == user;
    assert m[2 + u] == |pass|;
    assert m[3 + u..3 + u + |pass|] == pass;
  }

  /** What the server reads from the request as written: it is accepted iff the password is at least as
      long as the user name, the user name is then exact, and the password starts with the PWLEN octet. */
  lemma UserpassAsWritten(opt: AuthOptions)
    requires opt.Userpass? && opt.Valid()
    ensures var r := ParseUserpassAt(UserpassRequest(opt), 2);
            if |opt.user| <= |opt.pass|
            then r == Some(Credentials(opt.user, ([|opt.user|] + opt.pass)[..|opt.user|]))
            else r == None
    ensures var r := ParseUserpassAt(UserpassRequest(opt), 3);
            if |opt.user| <= |opt.pass|
            then r == Some(Credentials(opt.user, opt.pass[..|opt.user|]))
            else r == None
  {
    var m, u := UserpassRequest(opt), |opt.user|;
    assert m[2..2 + u] == opt.user;
    assert m[2 + u..] == [u] + opt.pass;
    assert m[3 + u..] == opt.pass;
    assert m[2 + u] == m[2 + u..][0];
    if u <= |opt.pass| {
      assert m[2 + u..2 + u + u] == m[2 + u..][..u];
      assert m[3 + u..3 + u + u] == m[3 + u..][..u];
    }
  }

  /** The exact condition under which client and server as written agree on both strings: equal lengths,
      and every octet of the password equal to that length. A server that reads the password where
      RFC 1929 puts it needs only the equal lengths. */
  lemma UserpassRoundTripExactly(opt: AuthOptions)
    requires opt.Userpass? && opt.Valid()
    ensures ParseUserpassAt(UserpassRequest(opt), 2) == Some(Credentials(opt.user, opt.pass))
            <==> |opt.pass| == |opt.user| && forall c <- opt.pass :: c == |opt.user|
    ensures ParseUserpassAt(UserpassRequest(opt), 3) == Some(Credentials(opt.user, opt.pass))
            <==> |opt.pass| == |opt.user|
  {
    UserpassAsWritten(opt);
    var u := |opt.user|;
    if |opt.pass| == u {
      ShiftedIsConstant(opt.pass, u);
      assert opt.pass[..u] == opt.pass;
    }
  }

  /** A sequence equals itself shifted by one behind `c` iff it consists of `c` alone. */
  lemma ShiftedIsConstant(s: seq<Octet>, c: Octet)
    ensures ([c] + s)[..|s|] == s <==> forall x <- s :: x == c
  {
    var shifted := ([c] + s)[..|s|];
    if shifted == s {
      forall i | 0 <= i < |s| ensures s[i] == c { ShiftedAt(s, c, i); }
    } else {
      var i :| 0 <= i < |s| && shifted[i] != s[i];
      assert s[i] in s && shifted[i] == if i == 0 then c else s[i - 1];
      assert i > 0 ==> s[i - 1] in s;
    }
  }

  lemma {:induction false} ShiftedAt(s: seq<Octet>, c: Octet, i: nat)
    requires ([c] + s)[..|s|] == s && i < |s|
    ensures s[i] == c
  {
    assert s[i] == ([c] + s)[..|s|][i];
    if i > 0 { ShiftedAt(s, c, i - 1); }
  }

  /** A request the server as written gets wrong: user "a", password "b". */
  lemma UserpassCounterexample()
    ensures var opt := Userpass([97], [98]);
            ParseUserpassAt(UserpassRequest(opt), 2) == Some(Credentials([97], [1]))
  {
    UserpassAsWritten(Userpass([97], [98]));
  }

  // ---------------------------------------------------------------- SOCKS4

  /** The SOCKS4 request round trip: port and address are recovered whatever the user id. */
  lemma RequestV4RoundTrip(ep: Endpoint, user: seq<Octet>)
    requires ep.V4?
    ensures |RequestV4(ep, user)| == 9 + |user|
    ensures ParseConnectV4(RequestV4(ep, user)) == Some(ep)
  {
    var r := RequestV4(ep, user);
    assert r[4..8] == ep.addr;
    assert r[2..4] == PortOctets(ep.port);
    assert r[2] == r[2..4][0] && r[3] == r[2..4][1];
  }

  /** What the client as written makes of a SOCKS4 reply: the port is exact, and the address is the port's
      low octet followed by the first three octets of the address sent. */
  lemma ReplyV4AsWritten(rep: Octet, bnd: Endpoint)
    requires bnd.V4?
    ensures DecodeReplyV4(ReplyV4(rep, bnd)) ==
            if rep == 90 then Decoded(Socks(90), V4([bnd.port % 256] + bnd.addr[..3], bnd.port))
            else Decoded(Socks(ReplyCodeV4(rep)), UNSPECIFIED)
  {
  }

  /** The SOCKS4 reply round trip holds iff the four address octets all equal the port's low octet. */
  lemma ReplyV4RoundTripExactly(bnd: Endpoint)
    requires bnd.V4?
    ensures DecodeReplyV4(ReplyV4(90, bnd)).ep == bnd <==> forall a <- bnd.addr :: a == bnd.port % 256
  {
    ReplyV4AsWritten(90, bnd);
    assert ([bnd.port % 256] + bnd.addr)[..4] == [bnd.port % 256] + bnd.addr[..3];
    ShiftedIsConstant(bnd.addr, bnd.port % 256);
  }

  /** For instance 127.0.0.1:1080 comes back as 56.127.0.0:1080. */
  lemma ReplyV4Counterexample()
    ensures DecodeReplyV4(ReplyV4(90, V4([127, 0, 0, 1], 1080))).ep == V4([56, 127, 0, 0], 1080)
  {
  }
}
