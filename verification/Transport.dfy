/** Byte streams that may cut data anywhere, and the composed reads and writes on top of them. A composed
    read asks its completion condition how many octets it may read next, and ends at zero or when its
    buffer is full. */
module Transport {
  import opened Octets
  import opened Wire
  import opened RoundTrips

  // ---------------------------------------------------------------- completion conditions

  /** The completion conditions of the client (`transfer_all`, `read_reply_cond`) and of the server. */
  datatype Condition = TransferAll | ReplyCond | GreetingCond | UserpassCond | ConnectCond {
    /** The size of the buffer that the condition is written for. */
    predicate Fits(size: nat) {
      match this
      case TransferAll => true
      case ReplyCond => size == 22
      case GreetingCond => size == 258
      case UserpassCond => size == 513
      case ConnectCond => size == 263
    }
  }

  /** A condition as the source evaluates it, on the whole buffer: octets past `n` were not received in this
      read. The result being a natural number says that no subtraction underflows. */
  function LimitAt(c: Condition, ec: ErrorCode, n: nat, buf: seq<Octet>): (max: nat)
    requires n <= |buf| && (c.TransferAll? || c.Fits(|buf|))
    ensures ec.Failed() ==> max == 0
  {
    if ec.Failed() then 0
    else
      match c
      case TransferAll => 65536
      case ReplyCond => if n == 10 && buf[3] == 1 then 0 else 22 - n
      case GreetingCond =>
        if n > 0 && buf[0] != 5 && buf[0] != 4 then 0
        else if buf[0] == 4 then
          if n >= 1 && buf[1] != 1 then 0
          else if n >= 9 && 0 in buf[8..n] then 0
          else 258 - n
        else if n >= 2 then
          var methods: nat := buf[1];
          var greet := 2 + methods;
          if n < greet then greet - n else 0
        else 258 - n
      case UserpassCond =>
        if n >= 1 && buf[0] != 1 then 0
        else if n < 2 then 513
        else
          var idlen: nat := buf[1];
          var pwlen: nat := if n > 2 + idlen then buf[2 + idlen] else 256;
          3 + idlen + pwlen
      case ConnectCond =>
        if (n >= 1 && buf[0] != 5) || (n >= 2 && buf[1] != 1) || (n >= 3 && buf[2] != 0) then 0
        else if n < 4 then 263 - n
        else
          var req: nat := RequestLength(buf[3], if n > 4 then Some(buf[4]) else None);
          if n < req then req - n else 0
  }

  /** The length of a CONNECT request, by its ATYP and, once received, the length octet of a domain. */
  function RequestLength(atyp: Octet, len: Option<Octet>): nat {
    if atyp == 1 then 10
    else if atyp == 4 then 22
    else if atyp == 3 then
      var n: nat := if len.Some? then len.value else 256;
      7 + n
    else 0
  }

  /** The same condition on the octets received in this read alone; what was never received counts as the
      zero that a new buffer holds. */
  function Limit(c: Condition, ec: ErrorCode, got: seq<Octet>, size: nat): (max: nat)
    requires |got| <= size && c.Fits(size)
    ensures ec.Failed() ==> max == 0
  {
    LimitAt(c, ec, |got|, got + seq(size - |got|, _ => 0))
  }

  /** No stale reads: the client's conditions and the server's user/pass and CONNECT conditions decide on
      octets of the current read alone, whatever an earlier message left in the buffer. The first read of
      the server looks at octets 0 and 1 before they arrive, and finds a new buffer's zeros there. */
  lemma NoStaleRead(c: Condition, ec: ErrorCode, n: nat, buf: seq<Octet>)
    requires n <= |buf| && c.Fits(|buf|)
    requires c.GreetingCond? ==> forall i | n <= i < 2 :: buf[i] == 0
    ensures LimitAt(c, ec, n, buf) == Limit(c, ec, buf[..n], |buf|)
  {
  }

  /** Whether a composed read that has received `got` ends here. */
  predicate Stops(c: Condition, size: nat, ec: ErrorCode, got: seq<Octet>)
    requires |got| <= size && c.Fits(size)
  {
    |got| == size || Limit(c, ec, got, size) == 0
  }

  // ---------------------------------------------------------------- streams

  /** One arrival at a stream: octets, an error, or octets together with the error that follows them. */
  datatype Event = Event(data: seq<Octet>, ec: ErrorCode) {
    predicate Valid() { (ec == Success || ec.Failed()) && (data != [] || ec.Failed()) }
  }
  type Segment = e: Event | e.Valid() witness Event([0], Success)

  function Flatten(input: seq<Segment>): seq<Octet> {
    if input == [] then [] else input[0].data + Flatten(input[1..])
  }

  /** A stream without errors: it ends, but does not fail. */
  predicate Clean(input: seq<Segment>) { forall s <- input :: s.ec == Success }

  datatype Received = Received(data: seq<Octet>, ec: ErrorCode, rest: seq<Segment>)

  /** `read_some`: at most `max` octets of the next arrival; a stream without arrivals has ended. */
  function ReadSome(input: seq<Segment>, max: nat): (r: Received)
    requires max > 0
    ensures |r.data| <= max && (r.data != [] || r.ec.Failed()) && (r.ec == Success || r.ec.Failed())
    ensures Flatten(input) == r.data + Flatten(r.rest)
    ensures Clean(input) ==> Clean(r.rest) && (input != [] ==> r.ec == Success)
  {
    if input == [] then Received([], Eof, [])
    else if |input[0].data| > max then
      var later: Segment := Event(input[0].data[max..], input[0].ec);
      assert ([later] + input[1..])[1..] == input[1..];
      Received(input[0].data[..max], Success, [later] + input[1..])
    else
      Received(input[0].data, input[0].ec, input[1..])
  }

  /** A composed read that has received `got` so far, with `ec` from its last `read_some`. */
  function ComposedRead(c: Condition, size: nat, got: seq<Octet>, ec: ErrorCode, input: seq<Segment>): (r: Received)
    requires |got| <= size && c.Fits(size)
    ensures got <= r.data && |r.data| <= size
    ensures ec == Success || ec.Failed() ==> r.ec == Success || r.ec.Failed()
    ensures got + Flatten(input) == r.data + Flatten(r.rest)
    decreases size - |got|, if ec.Failed() then 0 else 1
  {
    if Stops(c, size, ec, got) then Received(got, ec, input)
    else
      var some := ReadSome(input, Min(Limit(c, ec, got, size), size - |got|));
      ComposedRead(c, size, got + some.data, some.ec, some.rest)
  }

  /** One round of a composed read. */
  lemma ComposedRound(c: Condition, size: nat, got: seq<Octet>, ec: ErrorCode, input: seq<Segment>)
    requires |got| <= size && c.Fits(size)
    ensures |got| == size ==> Stops(c, size, ec, got)
    ensures Stops(c, size, ec, got) ==> ComposedRead(c, size, got, ec, input) == Received(got, ec, input)
    ensures !Stops(c, size, ec, got) ==>
              && Limit(c, ec, got, size) > 0
              && var some := ReadSome(input, Min(Limit(c, ec, got, size), size - |got|));
                 && |got| + |some.data| <= size && !ec.Failed()
                 && (some.data != [] || some.ec.Failed())
                 && ComposedRead(c, size, got, ec, input)
                    == ComposedRead(c, size, got + some.data, some.ec, some.rest)
  {
  }

  lemma FailedStops(c: Condition, size: nat, ec: ErrorCode, got: seq<Octet>)
    requires |got| <= size && c.Fits(size) && ec.Failed()
    ensures Stops(c, size, ec, got)
  {
  }

  lemma EndOfStream(max: nat)
    requires max > 0
    ensures ReadSome([], max) == Received([], Eof, []) && Flatten([]) == []
  {
  }

  /** However `msg` is cut into arrivals, a condition that holds at its end, and at no point before `lo`,
      ends the read without error somewhere from `lo` on, provided that nothing follows `msg` yet or that the
      buffer has no room for more. */
  lemma {:induction false} ReadsWithin(c: Condition, size: nat, msg: seq<Octet>, tail: seq<Octet>, lo: nat,
                                       got: seq<Octet>, input: seq<Segment>)
    requires got <= msg && lo <= |msg| <= size && c.Fits(size)
    requires got + Flatten(input) == msg + tail && Clean(input)
    requires tail == [] || |msg| == size
    requires Stops(c, size, Success, msg)
    requires forall k | |got| <= k < lo :: !Stops(c, size, Success, msg[..k])
    ensures var r := ComposedRead(c, size, got, Success, input);
            && r.data <= msg && lo <= |r.data| && r.ec == Success
            && Clean(r.rest) && r.data + Flatten(r.rest) == msg + tail
    decreases |msg| - |got|
  {
    hide ComposedRead, Limit;
    assert got == msg[..|got|];
    ComposedRound(c, size, got, Success, input);
    if !Stops(c, size, Success, got) {
      assert input != [];
      var some := ReadSome(input, Min(Limit(c, Success, got, size), size - |got|));
      var got' := got + some.data;
      assert got' + Flatten(some.rest) == msg + tail;
      assert got' == (msg + tail)[..|got'|];
      assert |got'| <= |msg|;
      assert got' == msg[..|got'|];
      ReadsWithin(c, size, msg, tail, lo, got', some.rest);
    }
  }

  /** Chunking independence: when the condition stops a read at the end of `msg` and nowhere before, then
      every way of cutting `msg` into arrivals gives exactly `msg`. */
  lemma ReadsExactly(c: Condition, size: nat, msg: seq<Octet>, tail: seq<Octet>, input: seq<Segment>)
    requires |msg| <= size && c.Fits(size)
    requires Flatten(input) == msg + tail && Clean(input)
    requires tail == [] || |msg| == size
    requires forall k | 0 <= k <= |msg| :: Stops(c, size, Success, msg[..k]) <==> k == |msg|
    ensures var r := ComposedRead(c, size, [], Success, input);
            r.data == msg && r.ec == Success && Clean(r.rest) && Flatten(r.rest) == tail
  {
    assert msg[..|msg|] == msg;
    ReadsWithin(c, size, msg, tail, |msg|, [], input);
    var r := ComposedRead(c, size, [], Success, input);
    assert Flatten(r.rest) == (r.data + Flatten(r.rest))[|msg|..] == (msg + tail)[|msg|..];
  }

  // ---------------------------------------------------------------- cuts

  /** One of the arrivals ends exactly `n` octets into the stream. */
  predicate CutAt(input: seq<Segment>, n: nat) {
    n == 0 || (input != [] && |input[0].data| <= n && CutAt(input[1..], n - |input[0].data|))
  }

  lemma {:induction false} CutAtMeans(input: seq<Segment>, n: nat)
    ensures CutAt(input, n) <==> exists i :: 0 <= i <= |input| && |Flatten(input[..i])| == n
  {
    if n == 0 {
      assert |Flatten(input[..0])| == 0;
    } else if input != [] {
      var m := |input[0].data|;
      if m <= n { CutAtMeans(input[1..], n - m); }
      forall i | 0 < i <= |input| ensures Flatten(input[..i]) == input[0].data + Flatten(input[1..][..i - 1]) {
        assert input[..i][1..] == input[1..][..i - 1];
      }
      if CutAt(input, n) {
        var i :| 0 <= i <= |input[1..]| && |Flatten(input[1..][..i])| == n - m;
        assert |Flatten(input[..i + 1])| == n;
      }
    }
  }

  /** Every stream is cut at its end. */
  lemma {:induction false} CutAtEnd(input: seq<Segment>)
    ensures CutAt(input, |Flatten(input)|)
  {
    if input != [] { CutAtEnd(input[1..]); }
  }

  /** What a `read_some` leaves has the cuts that lay behind what it took. */
  lemma CutAfter(input: seq<Segment>, max: nat, n: nat)
    requires input != [] && 0 < max && 0 < n
    ensures var some := ReadSome(input, max);
            && (|some.data| > n ==> !CutAt(input, n))
            && (|some.data| == n < max ==> CutAt(input, n))
            && (|some.data| < n ==> (CutAt(input, n) <==> CutAt(some.rest, n - |some.data|)))
  {
  }

  /** And so has what a composed read leaves. */
  lemma {:induction false} ReadKeepsCuts(c: Condition, size: nat, got: seq<Octet>, ec: ErrorCode,
                                         input: seq<Segment>, n: nat)
    requires |got| <= size && c.Fits(size) && 0 < n
    ensures var r := ComposedRead(c, size, got, ec, input);
            CutAt(r.rest, n) <==> CutAt(input, |r.data| - |got| + n)
    decreases size - |got|, if ec.Failed() then 0 else 1
  {
    hide ComposedRead, Limit, Stops, Flatten;
    ComposedRound(c, size, got, ec, input);
    if !Stops(c, size, ec, got) {
      var max := Min(Limit(c, ec, got, size), size - |got|);
      var some := ReadSome(input, max);
      ReadKeepsCuts(c, size, got + some.data, some.ec, some.rest, n);
      var r := ComposedRead(c, size, got, ec, input);
      if input != [] { CutAfter(input, max, |r.data| - |got| + n); }
    }
  }

  /** One of the arrivals ends there or there, or in between. */
  ghost predicate CutWithin(input: seq<Segment>, lo: nat, hi: nat) { exists k: nat :: lo <= k <= hi && CutAt(input, k) }

  lemma CutWithinAfter(input: seq<Segment>, max: nat, lo: nat, hi: nat)
    requires input != [] && 0 < lo <= hi < max
    ensures var some := ReadSome(input, max); var n := |some.data|;
            CutWithin(input, lo, hi) <==> if n < lo then CutWithin(some.rest, lo - n, hi - n) else n <= hi
  {
    hide ReadSome, CutAt;
    var some := ReadSome(input, max);
    var n := |some.data|;
    forall k: nat | lo <= k <= hi
      ensures n > k ==> !CutAt(input, k)
      ensures n == k ==> CutAt(input, k)
      ensures n < k ==> (CutAt(input, k) <==> CutAt(some.rest, k - n))
    {
      CutAfter(input, max, k);
    }
    if n < lo && CutWithin(some.rest, lo - n, hi - n) {
      var k: nat :| lo - n <= k <= hi - n && CutAt(some.rest, k);
      assert CutAt(input, k + n);
    }
    if CutWithin(input, lo, hi) {
      var k: nat :| lo <= k <= hi && CutAt(input, k);
      assert n <= k;
      if n < lo { assert CutAt(some.rest, k - n); }
    }
    if lo <= n <= hi { assert CutAt(input, n); }
  }

  /** A read from a stream without errors ends by its condition or at the end of the stream. */
  lemma {:induction false} ReadEndsClean(c: Condition, size: nat, got: seq<Octet>, ec: ErrorCode, input: seq<Segment>)
    requires |got| <= size && c.Fits(size) && Clean(input) && (ec == Success || ec == Eof)
    ensures var r := ComposedRead(c, size, got, ec, input); (r.ec == Success || r.ec == Eof) && Clean(r.rest)
    decreases size - |got|, if ec.Failed() then 0 else 1
  {
    hide ComposedRead, Limit, Stops, Flatten;
    ComposedRound(c, size, got, ec, input);
    if !Stops(c, size, ec, got) {
      var some := ReadSome(input, Min(Limit(c, ec, got, size), size - |got|));
      ReadEndsClean(c, size, got + some.data, some.ec, some.rest);
    }
  }

  // ---------------------------------------------------------------- where each message ends a read

  /** A reply that is 10 octets of IPv4, or 22 octets of anything else, ends the client's reply read. */
  lemma ReplyStops(msg: seq<Octet>, k: nat)
    requires |msg| == (if |msg| > 3 && msg[3] == 1 then 10 else 22) && k <= |msg|
    ensures Stops(ReplyCond, 22, Success, msg[..k]) <==> k == |msg|
  {
  }

  /** A greeting ends the server's first read where its NMETHODS octet says. */
  lemma GreetingStops(methods: seq<Octet>, k: nat)
    requires |methods| <= 255 && k <= |MethodList(methods)|
    ensures Stops(GreetingCond, 258, Success, MethodList(methods)[..k]) <==> k == |MethodList(methods)|
  {
  }

  /** A user/pass request of any length never ends the server's read before all 513 octets are in. */
  lemma UserpassStops(opt: AuthOptions, k: nat)
    requires opt.Userpass? && opt.Valid() && k <= |UserpassRequest(opt)|
    ensures Stops(UserpassCond, 513, Success, UserpassRequest(opt)[..k]) <==> k == 513
  {
  }

  /** The server's CONNECT read ends at the length it works out, for every cut of every request: for every
      endpoint and every domain of at most 255 octets that is the length of the request. */
  lemma RequestStops(t: Target, k: nat)
    requires k <= |Request(t)| && k <= 263
    ensures Stops(ConnectCond, 263, Success, Request(t)[..k]) <==> k >= HeardSize(t)
    ensures Expressible(t) ==> HeardSize(t) == |Request(t)|
  {
  }

  /** The server's first read of a SOCKS4 request that arrives with at least two octets first ends at the
      NUL, for every cut, exactly if the user id has at most 249 octets and no NUL of its own. */
  lemma RequestV4Stops(ep: Endpoint, user: seq<Octet>)
    requires ep.V4?
    ensures (forall k | 2 <= k <= Min(|RequestV4(ep, user)|, 258) ::
               Stops(GreetingCond, 258, Success, RequestV4(ep, user)[..k]) <==> k == |RequestV4(ep, user)|)
            <==> |user| <= 249 && 0 !in user
  {
    var m := RequestV4(ep, user);
    assert m[8..8 + |user|] == user;
    if |user| <= 249 && 0 !in user {
      forall k | 2 <= k <= |m|
        ensures Stops(GreetingCond, 258, Success, m[..k]) <==> k == |m|
      {
        if 9 <= k < |m| {
          assert m[8..k] == user[..k - 8];
          assert (m[..k] + seq(258 - k, _ => 0))[8..k] == m[8..k];
        } else if k == |m| {
          assert (m[..k] + seq(258 - k, _ => 0))[8 + |user|] == 0;
          assert (m[..k] + seq(258 - k, _ => 0))[8..k][|user|] == 0;
        }
      }
    } else if 0 in user && exists i :: 0 <= i < |user| && user[i] == 0 && i <= 248 {
      var i :| 0 <= i < |user| && user[i] == 0 && i <= 248;
      var k := 9 + i;
      assert m[8..8 + |user|][i] == m[8 + i];
      assert (m[..k] + seq(258 - k, _ => 0))[8..k][i] == 0;
      assert Stops(GreetingCond, 258, Success, m[..k]) && k < |m|;
    } else {
      assert |m| > 258;
      assert Stops(GreetingCond, 258, Success, m[..258]);
    }
  }

  /** A first chunk of one octet ends the read of a SOCKS4 request at once: the condition looks at the
      command octet before it is there. */
  lemma RequestV4FirstOctet(rest: seq<Segment>)
    ensures ComposedRead(GreetingCond, 258, [], Success, [Event([4], Success)] + rest)
            == Received([4], Success, rest)
  {
    var input: seq<Segment> := [Event([4], Success)] + rest;
    assert input[1..] == rest;
    assert ReadSome(input, 258) == Received([4], Success, rest);
  }

  // ---------------------------------------------------------------- the stream object

  /** What becomes of one composed write: all octets go out, or an error comes after the first `sent`. */
  datatype Fault = Fault(ec: ErrorCode, sent: nat)

  /** The state of a stream: what will arrive, how the next writes will fare, the messages handed over for
      writing so far, and the octets that went out. */
  datatype Io = Io(input: seq<Segment>, faults: seq<Fault>, handed: seq<seq<Octet>>, wire: seq<Octet>)

  datatype Sent = Sent(ec: ErrorCode, io: Io)

  function Hand(io: Io, msg: seq<Octet>): Sent {
    var io' := io.(handed := io.handed + [msg]);
    if io.faults == [] then Sent(Success, io'.(wire := io.wire + msg))
    else
      var f := io.faults[0];
      Sent(if f.ec.Failed() then f.ec else Success,
           io'.(faults := io.faults[1..],
                wire := io.wire + if f.ec.Failed() then msg[..Min(f.sent, |msg|)] else msg))
  }

  class Stream {
    var input: seq<Segment>
    var faults: seq<Fault>
    var handed: seq<seq<Octet>>
    var wire: seq<Octet>

    ghost function State(): Io
      reads this
    {
      Io(input, faults, handed, wire)
    }

    constructor (input: seq<Segment>, faults: seq<Fault>)
      ensures State() == Io(input, faults, [], [])
    {
      this.input, this.faults, handed, wire := input, faults, [], [];
    }

    /** `asio::write` of the first `n` octets of the buffer. */
    method Write(buffer: array<Octet>, n: nat) returns (ec: ErrorCode)
      requires n <= buffer.Length
      modifies this
      ensures Hand(old(State()), buffer[..n]) == Sent(ec, State())
    {
      var msg := buffer[..n];
      handed := handed + [msg];
      ec := Success;
      if faults != [] {
        if faults[0].ec.Failed() {
          ec := faults[0].ec;
          msg := msg[..Min(faults[0].sent, n)];
        }
        faults := faults[1..];
      }
      wire := wire + msg;
    }

    /** One `read_some` into the buffer behind its first `n` octets. */
    method ReadSomeAt(buffer: array<Octet>, n: nat, max: nat) returns (k: nat, ec: ErrorCode)
      requires 0 < max && n + max <= buffer.Length
      modifies this`input, buffer
      ensures var r := ReadSome(old(input), max);
              k == |r.data| && ec == r.ec && input == r.rest && buffer[..n + k] == old(buffer[..n]) + r.data
      ensures buffer[n + k..] == old(buffer[n + k..])
    {
      var r := ReadSome(input, max);
      k, ec, input := |r.data|, r.ec, r.rest;
      forall i | 0 <= i < k { buffer[n + i] := r.data[i]; }
    }

    /** One round of a composed read: ask the condition, then read what it allows. The condition sees the
        buffer as it is, with whatever an earlier message left behind `n`. */
    method ReadMore(buffer: array<Octet>, size: nat, c: Condition, n: nat, ec: ErrorCode)
      returns (done: bool, n': nat, ec': ErrorCode)
      requires n < size <= buffer.Length && c.Fits(size) && !c.GreetingCond?
      modifies this`input, buffer
      ensures n <= n' <= size && buffer[size..] == old(buffer[size..])
      ensures done <==> Stops(c, size, ec, old(buffer[..n]))
      ensures done ==> n' == n && ec' == ec && input == old(input) && buffer[..] == old(buffer[..])
      ensures !done ==>
                var r := ReadSome(old(input), Min(Limit(c, ec, old(buffer[..n]), size), size - n));
                buffer[..n'] == old(buffer[..n]) + r.data && ec' == r.ec && input == r.rest
    {
      var max := LimitAt(c, ec, n, buffer[..size]);
      NoStaleRead(c, ec, n, buffer[..size]);
      assert buffer[..size][..n] == buffer[..n];
      done, n', ec' := max == 0, n, ec;
      if !done {
        var k, e := ReadSomeAt(buffer, n, Min(max, size - n));
        assert buffer[size..] == buffer[n + k..][size - n - k..];
        n', ec' := n + k, e;
      }
    }

    /** `asio::read` of at most `size` octets to the front of the buffer under a completion condition. */
    method Read(buffer: array<Octet>, size: nat, c: Condition) returns (n: nat, ec: ErrorCode)
      requires size <= buffer.Length && c.Fits(size) && !c.GreetingCond?
      modifies this`input, buffer
      ensures n <= size && buffer[size..] == old(buffer[size..])
      ensures ComposedRead(c, size, [], Success, old(input)) == Received(buffer[..n], ec, input)
    {
      hide Limit, LimitAt, ComposedRead, ReadSome, Stops, Condition.Fits;
      n, ec := 0, Success;
      ghost var all := ComposedRead(c, size, [], Success, input);
      assert buffer[..0] == [];
      var done := false;
      while n < size && !done
        invariant n <= size && buffer[size..] == old(buffer[size..])
        invariant ComposedRead(c, size, buffer[..n], ec, input) == all
        invariant done ==> Stops(c, size, ec, buffer[..n])
        decreases !done, size - n, if ec.Failed() then 0 else 1
      {
        ghost var got := buffer[..n];
        ComposedRound(c, size, got, ec, input);
        done, n, ec := ReadMore(buffer, size, c, n, ec);
        if done {
          assert buffer[..n] == got;
        }
      }
      ComposedRound(c, size, buffer[..n], ec, input);
    }
  }
}
