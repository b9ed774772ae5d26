/** The client's messages through the server's reads: for every cut of a message into arrivals, with nothing
    behind it, what the server reads and makes of it. */
module ServerReads {
  import opened Octets
  import opened Wire
  import opened RoundTrips
  import opened Transport
  import opened Server

  /** A composed read over a whole stream. */
  function ReadAll(pc: Pc, input: seq<Segment>): Received
    requires pc.Reading()
  {
    ComposedRead(pc.Cond(), pc.Size(), [], Success, input)
  }

  /** Every cut of every list of methods is read to its end, and answered with the choice from the list. */
  lemma GreetingRead(methods: seq<Octet>, input: seq<Segment>)
    requires |methods| <= 255 && Clean(input) && Flatten(input) == MethodList(methods)
    ensures var r := ReadAll(ReadingGreeting, input);
            r.data == MethodList(methods) && r.ec == Success && r.rest == []
    ensures ParseGreeting(ReadAll(ReadingGreeting, input).data) == Some(Choose(methods))
  {
    var m := MethodList(methods);
    forall k | 0 <= k <= |m| ensures Stops(GreetingCond, 258, Success, m[..k]) <==> k == |m| {
      GreetingStops(methods, k);
    }
    assert m + [] == m;
    ReadsExactly(GreetingCond, 258, m, [], input);
    NothingLeft(ReadAll(ReadingGreeting, input).rest);
    assert m[2..] == methods;
  }

  /** Arrivals without error carry octets. */
  lemma NothingLeft(input: seq<Segment>)
    requires Clean(input) && Flatten(input) == []
    ensures input == []
  {
  }

  /** The CONNECT read ends without error at or behind the length the server works out. */
  lemma ConnectReadEnds(t: Target, input: seq<Segment>)
    requires Clean(input) && Flatten(input) == Request(t)
    ensures var r := ReadAll(ReadingConnect, input);
            && r.ec == Success && Clean(r.rest) && r.data <= Request(t) && HeardSize(t) <= |r.data|
            && r.data + Flatten(r.rest) == Request(t)
    ensures 7 <= HeardSize(t) <= |Request(t)|
  {
    hide ComposedRead, Flatten, Request, Limit;
    RequestLayout(t);
    var m := Request(t);
    var n := Min(|m|, 263);
    var msg, tail := m[..n], m[n..];
    RequestStops(t, n);
    forall k | 0 <= k < HeardSize(t) ensures !Stops(ConnectCond, 263, Success, msg[..k]) {
      RequestStops(t, k);
      assert msg[..k] == m[..k];
    }
    assert msg + tail == m;
    ReadsWithin(ConnectCond, 263, msg, tail, HeardSize(t), [], input);
  }

  /** Every cut of a CONNECT request is understood as it was meant, exactly if a domain in it has at most 255
      octets; then the request is read to its end and no further. */
  lemma ConnectRead(t: Target, input: seq<Segment>)
    requires Clean(input) && Flatten(input) == Request(t)
    ensures var r := ReadAll(ReadingConnect, input);
            && r.ec == Success && |r.data| > 4
            && (ParseConnect(r.data) == Wanted(t) <==> Expressible(t))
            && (Expressible(t) ==> r.data == Request(t) && r.rest == [])
  {
    hide ComposedRead, Request, ParseConnect;
    ConnectReadEnds(t, input);
    var r := ReadAll(ReadingConnect, input);
    RequestHeard(t, r.data);
    RequestStops(t, 0);
    if Expressible(t) {
      assert Flatten(r.rest) == (r.data + Flatten(r.rest))[|r.data|..] == [];
      NothingLeft(r.rest);
    } else if |r.data| == HeardSize(t) {
      assert |t.name[..|t.name| % 256]| != |t.name|;
    }
  }

  /** The user/pass read takes in every request whole, but it ends by itself only if the request has all of
      513 octets, that is, if user name and password both have 255; any other request leaves the server
      reading until the client gives up. */
  lemma UserpassReadOutcome(opt: AuthOptions, input: seq<Segment>)
    requires opt.Userpass? && opt.Valid() && Clean(input) && Flatten(input) == UserpassRequest(opt)
    ensures ReadAll(ReadingUserpass, input)
            == Received(UserpassRequest(opt), if |UserpassRequest(opt)| == 513 then Success else Eof, [])
    ensures |UserpassRequest(opt)| == 513 <==> |opt.user| == |opt.pass| == 255
  {
    assert UserpassRequest(opt)[..|UserpassRequest(opt)|] == UserpassRequest(opt);
    UserpassReads(opt, [], input);
  }

  lemma {:induction false} UserpassReads(opt: AuthOptions, got: seq<Octet>, input: seq<Segment>)
    requires opt.Userpass? && opt.Valid() && Clean(input) && got + Flatten(input) == UserpassRequest(opt)
    ensures ComposedRead(UserpassCond, 513, got, Success, input)
            == Received(UserpassRequest(opt), if |UserpassRequest(opt)| == 513 then Success else Eof, [])
    decreases |Flatten(input)|
  {
    var m := UserpassRequest(opt);
    assert got == m[..|got|];
    UserpassStops(opt, |got|);
    if |got| == 513 {
      NothingLeft(input);
    } else {
      var max := Min(Limit(UserpassCond, Success, got, 513), 513 - |got|);
      var some := ReadSome(input, max);
      if input == [] {
        assert got + [] == got;
      } else {
        assert got + some.data + Flatten(some.rest) == m;
        UserpassReads(opt, got + some.data, some.rest);
      }
    }
  }

  /** A SOCKS4 request is recognised, with its port and address, for exactly those cuts whose first arrival
      has at least two octets, whatever the user id. A user id without NUL of at most 249 octets is read to
      its terminating NUL and no further. */
  lemma RequestV4Read(ep: Endpoint, user: seq<Octet>, input: seq<Segment>)
    requires ep.V4? && Clean(input) && Flatten(input) == RequestV4(ep, user)
    ensures input != []
    ensures var r := ReadAll(ReadingGreeting, input);
            && r.ec == Success && |r.data| > 0
            && (ParseConnectV4(r.data) == Some(ep) <==> |input[0].data| >= 2)
            && (|input[0].data| >= 2 && |user| <= 249 && 0 !in user ==> r.data == RequestV4(ep, user) && r.rest == [])
  {
    hide ComposedRead, Limit, Stops;
    FirstRead(input);
    var m := RequestV4(ep, user);
    assert input != [];
    assert input[0] in input && m[0] == 4;
    assert m == input[0].data + Flatten(input[1..]);
    if |input[0].data| == 1 {
      RequestV4Cut(input);
    } else {
      var some := ReadSome(input, 258);
      assert some.data + Flatten(some.rest) == m;
      assert [] + some.data == some.data;
      RequestV4Rest(ep, user, some.data, some.rest);
    }
  }

  /** The octet 4 arrives alone. */
  lemma RequestV4Cut(input: seq<Segment>)
    requires input != [] && input[0] == Event([4], Success)
    ensures ReadAll(ReadingGreeting, input) == Received([4], Success, input[1..])
    ensures ParseConnectV4([4]).None?
  {
    assert input == [Event([4], Success)] + input[1..];
    RequestV4FirstOctet(input[1..]);
  }

  /** The first `read_some` of a connection may fill the buffer. */
  lemma FirstRead(input: seq<Segment>)
    ensures var some := ReadSome(input, 258);
            ComposedRead(GreetingCond, 258, [], Success, input)
            == ComposedRead(GreetingCond, 258, [] + some.data, some.ec, some.rest)
  {
    assert Limit(GreetingCond, Success, [], 258) == 258;
  }

  lemma RequestV4Rest(ep: Endpoint, user: seq<Octet>, got: seq<Octet>, input: seq<Segment>)
    requires ep.V4? && Clean(input) && 2 <= |got| <= 258 && got + Flatten(input) == RequestV4(ep, user)
    ensures var r := ComposedRead(GreetingCond, 258, got, Success, input);
            && r.ec == Success && |r.data| > 0 && ParseConnectV4(r.data) == Some(ep)
            && (|user| <= 249 && 0 !in user ==> r.data == RequestV4(ep, user) && r.rest == [])
  {
    hide ComposedRead, Limit, RequestV4, Flatten;
    var m := RequestV4(ep, user);
    var plain := |user| <= 249 && 0 !in user;
    RequestV4RoundTrip(ep, user);
    V4StopsFromNine(ep, user);
    RequestV4Stops(ep, user);
    var n, lo := Min(|m|, 258), if plain then |m| else 9;
    var msg, tail := m[..n], m[n..];
    assert msg + tail == m && got == m[..|got|] == msg[..|got|];
    forall k | |got| <= k < lo ensures !Stops(GreetingCond, 258, Success, msg[..k]) {
      assert msg[..k] == m[..k];
    }
    ReadsWithin(GreetingCond, 258, msg, tail, lo, got, input);
    var r := ComposedRead(GreetingCond, 258, got, Success, input);
    assert r.data == m[..|r.data|];
    V4PrefixParsed(ep, user, r.data);
    if plain {
      assert Flatten(r.rest) == (r.data + Flatten(r.rest))[|m|..] == [];
      NothingLeft(r.rest);
    }
  }

  lemma V4PrefixParsed(ep: Endpoint, user: seq<Octet>, q: seq<Octet>)
    requires ep.V4? && 8 <= |q| && q <= RequestV4(ep, user)
    ensures ParseConnectV4(q) == Some(ep)
  {
    RequestV4RoundTrip(ep, user);
    assert q[4..8] == RequestV4(ep, user)[4..8];
  }

  /** The condition for SOCKS4 holds at no point of the first nine octets but the first, and at the end. */
  lemma V4StopsFromNine(ep: Endpoint, user: seq<Octet>)
    requires ep.V4?
    ensures forall k | 2 <= k < 9 :: !Stops(GreetingCond, 258, Success, RequestV4(ep, user)[..k])
    ensures Stops(GreetingCond, 258, Success, RequestV4(ep, user)[..Min(|RequestV4(ep, user)|, 258)])
  {
    var m := RequestV4(ep, user);
    var n := Min(|m|, 258);
    if n < 258 {
      var buf := m[..n] + seq(258 - n, _ => 0);
      assert buf[8..n][n - 9] == buf[n - 1] == 0;
    }
  }

  /** A SOCKS4 request whose first octet arrives alone is refused with 91. */
  lemma FirstOctetAloneRefused()
    ensures OnData(START, [4], Success) == AnswerV4(START.(data := [4]), 91, UNSPECIFIED)
  {
  }

  // ---------------------------------------------------------------- with something behind the message

  /** A read that may take as much as its buffer holds until `lo` octets have come, and then no more than is
      left of the message, takes exactly the message if an arrival ends between there and its end; otherwise
      it takes in what follows. */
  lemma {:induction false} ReadByCut(c: Condition, size: nat, msg: seq<Octet>, tail: seq<Octet>, lo: nat,
                                     got: seq<Octet>, input: seq<Segment>)
    requires c.Fits(size) && 0 < lo <= |msg| < size && Clean(input)
    requires got <= msg && |got| < |msg| && got + Flatten(input) == msg + tail
    requires forall k | |got| <= k < |msg| ::
               !Stops(c, size, Success, msg[..k])
               && Limit(c, Success, msg[..k], size) == if k < lo then size - k else |msg| - k
    requires forall n | |msg| <= n <= size && n <= |msg + tail| :: Stops(c, size, Success, (msg + tail)[..n])
    ensures var r := ComposedRead(c, size, got, Success, input);
            && r.ec == Success && msg <= r.data
            && (r.data == msg <==> lo <= |got| || CutWithin(input, lo - |got|, |msg| - |got|))
    decreases |msg| - |got|
  {
    hide ComposedRead, Limit, Stops, ReadSome, CutWithin, Flatten;
    assert got == msg[..|got|];
    ComposedRound(c, size, got, Success, input);
    HasMore(msg, tail, got, input);
    var max := if |got| < lo then size - |got| else |msg| - |got|;
    var some := ReadSome(input, max);
    var got', w := got + some.data, msg + tail;
    assert got' + Flatten(some.rest) == w;
    assert got' == w[..|got'|];
    if |got| < lo { CutWithinAfter(input, max, lo - |got|, |msg| - |got|); }
    if |got'| >= |msg| {
      assert got'[..|msg|] == w[..|msg|] == msg;
      ComposedRound(c, size, got', Success, some.rest);
    } else {
      assert got' == w[..|msg|][..|got'|];
      ReadByCut(c, size, msg, tail, lo, got', some.rest);
    }
  }

  lemma HasMore(msg: seq<Octet>, tail: seq<Octet>, got: seq<Octet>, input: seq<Segment>)
    requires got <= msg && |got| < |msg| && got + Flatten(input) == msg + tail
    ensures input != []
  {
  }

  /** A client that sends on without waiting for the choice is heard exactly if an arrival ends with the greeting,
      or within it behind NMETHODS; otherwise the server takes in too much and closes. */
  lemma GreetingReadByCut(methods: seq<Octet>, tail: seq<Octet>, input: seq<Segment>)
    requires |methods| <= 255 && Clean(input) && Flatten(input) == MethodList(methods) + tail
    ensures var m, r := MethodList(methods), ReadAll(ReadingGreeting, input);
            && r.ec == Success && m <= r.data
            && (r.data == m <==> CutWithin(input, 2, |m|))
            && (ParseGreeting(r.data) == Some(Choose(methods)) <==> r.data == m)
            && (ParseGreeting(r.data).None? <==> r.data != m)
  {
    hide ComposedRead, Limit, Stops, Flatten, CutWithin;
    var m := MethodList(methods);
    forall k | 0 <= k < |m|
      ensures !Stops(GreetingCond, 258, Success, m[..k])
              && Limit(GreetingCond, Success, m[..k], 258) == if k < 2 then 258 - k else |m| - k
    {
      GreetingStops(methods, k);
      GreetingLimit(methods, k);
    }
    forall n | |m| <= n <= 258 && n <= |m + tail| ensures Stops(GreetingCond, 258, Success, (m + tail)[..n]) {
      BeyondGreeting(methods, (m + tail)[..n]);
    }
    assert [] + Flatten(input) == Flatten(input);
    ReadByCut(GreetingCond, 258, m, tail, 2, [], input);
    BeyondGreeting(methods, ReadAll(ReadingGreeting, input).data);
  }

  lemma GreetingLimit(methods: seq<Octet>, k: nat)
    requires |methods| <= 255 && k < |MethodList(methods)|
    ensures Limit(GreetingCond, Success, MethodList(methods)[..k], 258)
            == if k < 2 then 258 - k else |MethodList(methods)| - k
  {
  }

  lemma BeyondGreeting(methods: seq<Octet>, b: seq<Octet>)
    requires |methods| <= 255 && MethodList(methods) <= b && |b| <= 258
    ensures Stops(GreetingCond, 258, Success, b)
    ensures ParseGreeting(b) == if b == MethodList(methods) then Some(Choose(methods)) else None
  {
    assert b[0] == MethodList(methods)[0] && b[1] == MethodList(methods)[1];
    assert MethodList(methods)[2..] == methods;
  }

  /** Where the length of a request is known: with ATYP, and with the length octet of a domain. */
  function LengthKnown(t: Target): nat { if t.Domain? then 5 else 4 }

  /** And a client that sends on without waiting for the reply is understood exactly if an arrival ends with the
      request, or within it once its length is known; otherwise it is refused with 8. */
  lemma ConnectReadByCut(t: Target, tail: seq<Octet>, input: seq<Segment>)
    requires Expressible(t) && Clean(input) && Flatten(input) == Request(t) + tail
    ensures var m, r := Request(t), ReadAll(ReadingConnect, input);
            && r.ec == Success && m <= r.data && 4 < |r.data|
            && (r.data == m <==> CutWithin(input, LengthKnown(t), |m|))
            && ParseConnect(r.data) == if r.data == m then Wanted(t) else Refuse(8)
  {
    hide ComposedRead, Limit, Stops, Flatten, Request, ParseConnect, CutWithin;
    var m := Request(t);
    RequestLayout(t);
    RequestLimit(t, 0);
    forall k | 0 <= k < |m|
      ensures !Stops(ConnectCond, 263, Success, m[..k])
              && Limit(ConnectCond, Success, m[..k], 263) == if k < LengthKnown(t) then 263 - k else |m| - k
    {
      RequestStops(t, k);
      RequestLimit(t, k);
    }
    forall n | |m| <= n <= 263 && n <= |m + tail| ensures Stops(ConnectCond, 263, Success, (m + tail)[..n]) {
      BeyondRequest(t, (m + tail)[..n]);
    }
    assert [] + Flatten(input) == Flatten(input);
    ReadByCut(ConnectCond, 263, m, tail, LengthKnown(t), [], input);
    RequestRoundTrip(t);
    BeyondRequest(t, ReadAll(ReadingConnect, input).data);
  }

  lemma RequestLimit(t: Target, k: nat)
    requires Expressible(t) && k < |Request(t)|
    ensures |Request(t)| <= 262
    ensures Limit(ConnectCond, Success, Request(t)[..k], 263)
            == if k < LengthKnown(t) then 263 - k else |Request(t)| - k
  {
    RequestLayout(t);
    var r := Request(t);
    assert r[0] == r[..3][0] && r[1] == r[..3][1] && r[2] == r[..3][2];
    var buf := r[..k] + seq(263 - k, _ => 0);
    assert forall i | 0 <= i < k :: buf[i] == r[i];
  }

  lemma BeyondRequest(t: Target, b: seq<Octet>)
    requires Expressible(t) && Request(t) <= b && |b| <= 263
    ensures 4 < |b| && Stops(ConnectCond, 263, Success, b)
    ensures b != Request(t) ==> ParseConnect(b) == Refuse(8)
  {
    RequestLayout(t);
    var r := Request(t);
    assert r[0] == r[..3][0] && r[1] == r[..3][1] && r[2] == r[..3][2];
    assert forall i | 0 <= i < |r| :: b[i] == r[i];
  }

  /** The user/pass read takes the first 513 octets of whatever comes after a version octet of 01. */
  lemma {:induction false} UserpassReadTakes(got: seq<Octet>, input: seq<Segment>)
    requires |got| <= 513 && Clean(input) && (got + Flatten(input) == [] || (got + Flatten(input))[0] == 1)
    ensures var w, r := got + Flatten(input), ComposedRead(UserpassCond, 513, got, Success, input);
            r.data == w[..Min(513, |w|)] && r.ec == if |w| < 513 then Eof else Success
    decreases 513 - |got|
  {
    hide ComposedRead, ReadSome, Flatten;
    ComposedRound(UserpassCond, 513, got, Success, input);
    var w := got + Flatten(input);
    if |got| < 513 {
      var max := Min(Limit(UserpassCond, Success, got, 513), 513 - |got|);
      var some := ReadSome(input, max);
      if input == [] {
        EndOfStream(max);
        assert got + [] == got == w;
        ComposedRound(UserpassCond, 513, got, Eof, []);
      } else {
        assert got + some.data + Flatten(some.rest) == w;
        UserpassReadTakes(got + some.data, some.rest);
      }
    } else {
      assert w[..513] == got;
    }
  }

  /** With something behind it, a SOCKS4 request is recognised as before, and read exactly if an arrival ends with
      it; otherwise the read takes in what follows, and that is lost. */
  lemma RequestV4ReadByCut(ep: Endpoint, user: seq<Octet>, tail: seq<Octet>, input: seq<Segment>)
    requires ep.V4? && |user| <= 248 && 0 !in user
    requires Clean(input) && Flatten(input) == RequestV4(ep, user) + tail && input != [] && |input[0].data| >= 2
    ensures var m, r := RequestV4(ep, user), ReadAll(ReadingGreeting, input);
            && r.ec == Success && m <= r.data && 8 <= |r.data| && ParseConnectV4(r.data) == Some(ep)
            && (r.data == m <==> CutAt(input, |m|))
  {
    hide ComposedRead, Limit, Stops, RequestV4, ParseConnectV4, CutAt, ReadSome, Flatten;
    var m := RequestV4(ep, user);
    FirstRead(input);
    RequestV4RoundTrip(ep, user);
    var some := ReadSome(input, 258);
    SomeIsMost(input, 258);
    assert [] + some.data == some.data;
    CutAfter(input, 258, |m|);
    if |some.data| < |m| { OneCut(some.rest, |m| - |some.data|); }
    RestByCut(ep, user, tail, some.data, some.rest);
    PrefixRecognised(ep, user, ReadAll(ReadingGreeting, input).data);
  }

  lemma SomeIsMost(input: seq<Segment>, max: nat)
    requires input != [] && max > 0 && Clean(input)
    ensures var some := ReadSome(input, max); |some.data| == Min(max, |input[0].data|) && some.ec == Success
  {
  }

  lemma OneCut(input: seq<Segment>, n: nat)
    ensures CutWithin(input, n, n) <==> CutAt(input, n)
  {
  }

  lemma RestByCut(ep: Endpoint, user: seq<Octet>, tail: seq<Octet>, got: seq<Octet>, input: seq<Segment>)
    requires ep.V4? && |user| <= 248 && 0 !in user && |RequestV4(ep, user)| == 9 + |user|
    requires Clean(input) && got + Flatten(input) == RequestV4(ep, user) + tail && 2 <= |got| <= 258
    ensures var m, r := RequestV4(ep, user), ComposedRead(GreetingCond, 258, got, Success, input);
            && r.ec == Success && m <= r.data
            && (r.data == m <==> if |got| < |m| then CutWithin(input, |m| - |got|, |m| - |got|) else |got| == |m|)
  {
    hide ComposedRead, Limit, Stops, RequestV4, Flatten, CutWithin;
    var m := RequestV4(ep, user);
    var w := m + tail;
    assert got == w[..|got|];
    forall n | |m| <= n <= 258 && n <= |w| ensures Stops(GreetingCond, 258, Success, w[..n]) {
      BeyondV4(ep, user, w[..n]);
    }
    if |got| >= |m| {
      ComposedRound(GreetingCond, 258, got, Success, input);
      assert got[..|m|] == w[..|m|] == m;
    } else {
      assert got == m[..|got|];
      forall k | |got| <= k < |m|
        ensures !Stops(GreetingCond, 258, Success, m[..k]) && Limit(GreetingCond, Success, m[..k], 258) == 258 - k
      {
        WithinV4(ep, user, k);
      }
      ReadByCut(GreetingCond, 258, m, tail, |m|, got, input);
    }
  }

  lemma PrefixRecognised(ep: Endpoint, user: seq<Octet>, b: seq<Octet>)
    requires ep.V4? && RequestV4(ep, user) <= b
    ensures 8 <= |b| && ParseConnectV4(b) == Some(ep)
  {
    RequestV4RoundTrip(ep, user);
    var m := RequestV4(ep, user);
    assert forall i | 0 <= i < |m| :: b[i] == m[i];
    assert b[4..8] == m[4..8];
  }

  lemma WithinV4(ep: Endpoint, user: seq<Octet>, k: nat)
    requires ep.V4? && 0 !in user && |user| <= 248 && 2 <= k < |RequestV4(ep, user)|
    ensures var got := RequestV4(ep, user)[..k];
            !Stops(GreetingCond, 258, Success, got) && Limit(GreetingCond, Success, got, 258) == 258 - k
  {
    var m := RequestV4(ep, user);
    var buf := m[..k] + seq(258 - k, _ => 0);
    if 9 <= k { assert buf[8..k] == user[..k - 8]; }
  }

  lemma BeyondV4(ep: Endpoint, user: seq<Octet>, b: seq<Octet>)
    requires ep.V4? && RequestV4(ep, user) <= b && |b| <= 258
    ensures Stops(GreetingCond, 258, Success, b)
  {
    var m := RequestV4(ep, user);
    var buf := b + seq(258 - |b|, _ => 0);
    assert buf[8..|b|][|user|] == m[8 + |user|] == 0;
  }
}
