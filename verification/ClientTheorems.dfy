/** What the client promises over whole runs, for both of its forms. */
module ClientTheorems {
  import opened Octets
  import opened Wire
  import opened Transport
  import opened Client

  /** What the server has to have sent before the client asks for the connection. */
  predicate Preamble(opt: AuthOptions, pre: seq<Octet>) {
    pre == [5, 0] || (opt.Userpass? && pre == [5, 2, 1, 0])
  }

  /** The messages of a complete run, by the preamble that was received. */
  function Script(cfg: Config, pre: seq<Octet>): seq<seq<Octet>>
    requires cfg.Valid() && Preamble(cfg.opt, pre)
  {
    if pre == [5, 0] then [Greeting(cfg.opt), Request(cfg.target)]
    else [Greeting(cfg.opt), UserpassRequest(cfg.opt), Request(cfg.target)]
  }

  // ---------------------------------------------------------------- exact consumption

  /** The reply read on its own: success consumes exactly the reply. */
  lemma ReplyConsumed(form: Form, cfg: Config, io: Io) returns (reply: seq<Octet>)
    requires cfg.Valid() && !RunFrom(form, cfg, ReadReply, io).ec.Failed()
    ensures var out := RunFrom(form, cfg, ReadReply, io);
            && Granted(reply) && Flatten(io.input) == reply + Flatten(out.io.input)
            && out == Outcome(Socks(0), GrantedEndpoint(reply), io.(input := out.io.input))
  {
    var r := ComposedRead(ReplyCond, 22, [], Success, io.input);
    reply := r.data;
    DecodeReplyGrants(reply);
  }

  lemma RequestConsumed(form: Form, cfg: Config, io: Io) returns (reply: seq<Octet>)
    requires cfg.Valid() && !RunFrom(form, cfg, WriteRequest, io).ec.Failed()
    ensures var out := RunFrom(form, cfg, WriteRequest, io);
            && Granted(reply) && Flatten(io.input) == reply + Flatten(out.io.input)
            && out.ec == Socks(0) && out.ep == GrantedEndpoint(reply)
            && out.io.handed == io.handed + [Request(cfg.target)]
  {
    var s := Hand(io, Request(cfg.target));
    reply := ReplyConsumed(form, cfg, s.io);
  }

  /** A successful run gets past the user/pass stage with an accepting reply. */
  lemma UserpassStage(form: Form, cfg: Config, io: Io) returns (io': Io)
    requires WriteUserpass.Fits(cfg) && !RunFrom(form, cfg, WriteUserpass, io).ec.Failed()
    ensures RunFrom(form, cfg, WriteUserpass, io) == RunFrom(form, cfg, WriteRequest, io')
    ensures Flatten(io.input) == [1, 0] + Flatten(io'.input)
    ensures io'.handed == io.handed + [UserpassRequest(cfg.opt)]
    ensures io'.input == ComposedRead(TransferAll, 2, [], Success, io.input).rest
  {
    hide ComposedRead, Flatten, UserpassRequest;
    var s := Hand(io, UserpassRequest(cfg.opt));
    var r := ComposedRead(TransferAll, 2, [], Success, s.io.input);
    io' := s.io.(input := r.rest);
    assert RunFrom(form, cfg, WriteUserpass, io) == RunFrom(form, cfg, ReadUserpass, s.io);
    assert RunFrom(form, cfg, ReadUserpass, s.io)
        == RunFrom(form, cfg, AfterRead(form, cfg, ReadUserpass, r.ec, r.data), io');
    assert r.data == [1, 0];
  }

  /** A successful run gets past the choice with a method that was offered. */
  lemma ChoiceStage(form: Form, cfg: Config, io: Io) returns (choice: seq<Octet>, io': Io)
    requires cfg.Valid() && !Run(form, cfg, io).ec.Failed()
    ensures choice == [5, 0] || (choice == [5, 2] && cfg.opt.Userpass?)
    ensures Run(form, cfg, io)
            == RunFrom(form, cfg, if choice == [5, 0] then WriteRequest else WriteUserpass, io')
    ensures Flatten(io.input) == choice + Flatten(io'.input)
    ensures io'.handed == io.handed + [Greeting(cfg.opt)]
    ensures io'.input == ComposedRead(TransferAll, 2, [], Success, io.input).rest
  {
    hide ComposedRead, Flatten, Greeting;
    var s := Hand(io, Greeting(cfg.opt));
    var r := ComposedRead(TransferAll, 2, [], Success, s.io.input);
    choice, io' := r.data, s.io.(input := r.rest);
    assert Run(form, cfg, io) == RunFrom(form, cfg, ReadChoice, s.io);
    assert RunFrom(form, cfg, ReadChoice, s.io)
        == RunFrom(form, cfg, AfterRead(form, cfg, ReadChoice, r.ec, r.data), io');
  }

  /** Exact consumption: for every stream, every cut of it and whatever follows, a client that reports
      success has consumed the two octets of the choice, two more if user/pass was chosen, and the 10 or 22
      octets of a granted reply, so that the next unread octet is the first of the relayed data. It has
      handed over exactly the messages of a complete run, and returns the endpoint of the reply. */
  lemma SuccessConsumesExactly(form: Form, cfg: Config, io: Io) returns (pre: seq<Octet>, reply: seq<Octet>)
    requires cfg.Valid()
    ensures var out := Run(form, cfg, io);
            !out.ec.Failed() ==>
              && Preamble(cfg.opt, pre) && Granted(reply)
              && Flatten(io.input) == pre + reply + Flatten(out.io.input)
              && out.ec == Socks(0) && out.ep == GrantedEndpoint(reply)
              && out.io.handed == io.handed + Script(cfg, pre)
  {
    hide RunFrom, Flatten, Greeting, Request, UserpassRequest, Granted, ComposedRead, GrantedEndpoint;
    pre, reply := [], [];
    if !Run(form, cfg, io).ec.Failed() {
      var choice, io1 := ChoiceStage(form, cfg, io);
      if choice == [5, 0] {
        pre := choice;
        reply := RequestConsumed(form, cfg, io1);
      } else {
        var io2 := UserpassStage(form, cfg, io1);
        pre := [5, 2, 1, 0];
        reply := RequestConsumed(form, cfg, io2);
        AppendOnce(choice, [1, 0], reply, Flatten(Run(form, cfg, io).io.input));
        assert choice + [1, 0] == pre;
        HandedOver(io.handed + [Greeting(cfg.opt)], UserpassRequest(cfg.opt), Request(cfg.target));
      }
      HandedOver(io.handed, Greeting(cfg.opt), Request(cfg.target));
    }
  }

  lemma HandedOver(before: seq<seq<Octet>>, a: seq<Octet>, b: seq<Octet>)
    ensures before + [a] + [b] == before + [a, b]
  {
  }

  lemma AppendOnce(a: seq<Octet>, b: seq<Octet>, c: seq<Octet>, d: seq<Octet>)
    ensures a + (b + (c + d)) == (a + b) + c + d
  {
  }

  // ---------------------------------------------------------------- success, by the cut

  /** The condition lets the read go on, whatever has come, at every size but those of a reply. */
  lemma ReplyGoesOn(got: seq<Octet>)
    requires |got| <= 22 && |got| != 10
    ensures Stops(ReplyCond, 22, Success, got) <==> |got| == 22
    ensures |got| < 22 ==> Limit(ReplyCond, Success, got, 22) == 22 - |got|
  {
  }

  /** The reply read stops behind an IPv4 reply exactly if an arrival ends there. */
  lemma {:induction false} ReplyReadByCut(reply: seq<Octet>, tail: seq<Octet>, got: seq<Octet>, input: seq<Segment>)
    requires |reply| == 10 && reply[3] == 1 && |got| < 10 && Clean(input) && got + Flatten(input) == reply + tail
    ensures var r := ComposedRead(ReplyCond, 22, got, Success, input);
            && (r.ec == Success || r.ec == Eof)
            && if CutAt(input, 10 - |got|) then r.data == reply && r.ec == Success && Flatten(r.rest) == tail
               else 10 < |r.data| <= 22 && reply <= r.data
    decreases 10 - |got|
  {
    hide ComposedRead, Limit, Stops, ReadSome, CutAt;
    ComposedRound(ReplyCond, 22, got, Success, input);
    ReplyGoesOn(got);
    assert input != [];
    var some := ReadSome(input, 22 - |got|);
    var got' := got + some.data;
    CutAfter(input, 22 - |got|, 10 - |got|);
    assert got' + Flatten(some.rest) == reply + tail;
    if |got'| < 10 {
      ReplyReadByCut(reply, tail, got', some.rest);
    } else {
      assert got'[..10] == (reply + tail)[..10] == reply;
      if |got'| == 10 {
        assert got' == got'[..10] && Flatten(some.rest) == (reply + tail)[10..] == tail;
        ReplyStops(reply, 10);
        ComposedRound(ReplyCond, 22, got', Success, some.rest);
      } else {
        ReadEndsClean(ReplyCond, 22, got', some.ec, some.rest);
      }
    }
  }

  /** Reading two octets that are there. */
  lemma PairRead(input: seq<Segment>, pair: seq<Octet>, tail: seq<Octet>)
    requires |pair| == 2 && Clean(input) && Flatten(input) == pair + tail
    ensures var r := ComposedRead(TransferAll, 2, [], Success, input);
            r.data == pair && r.ec == Success && Clean(r.rest) && Flatten(r.rest) == tail
    ensures var r := ComposedRead(TransferAll, 2, [], Success, input);
            forall n: nat | n > 0 :: CutAt(r.rest, n) <==> CutAt(input, 2 + n)
  {
    ReadsExactly(TransferAll, 2, pair, tail, input);
    forall n: nat | n > 0
      ensures CutAt(ComposedRead(TransferAll, 2, [], Success, input).rest, n) <==> CutAt(input, 2 + n)
    {
      ReadKeepsCuts(TransferAll, 2, [], Success, input, n);
    }
  }

  /** A result after a granted reply and `tail`: success if the read stopped behind the reply. */
  predicate ByCut(out: Outcome, reply: seq<Octet>, tail: seq<Octet>, cut: bool)
    requires Granted(reply)
  {
    if |reply| == 22 || cut then out.ec == Socks(0) && out.ep == GrantedEndpoint(reply) && Flatten(out.io.input) == tail
    else out.ec == BAD_REPLY_SIZE && out.ep == UNSPECIFIED
  }

  lemma ReplyByCut(form: Form, cfg: Config, io: Io, reply: seq<Octet>, tail: seq<Octet>)
    requires cfg.Valid() && Granted(reply)
    requires io.faults == [] && Clean(io.input) && Flatten(io.input) == reply + tail
    ensures ByCut(RunFrom(form, cfg, WriteRequest, io), reply, tail, CutAt(io.input, 10))
  {
    hide ComposedRead, Flatten, Request, Stops;
    DecodeReplyGrants(reply);
    if |reply| == 22 {
      forall k | 0 <= k <= 22 ensures Stops(ReplyCond, 22, Success, reply[..k]) <==> k == 22 { ReplyStops(reply, k); }
      ReadsExactly(ReplyCond, 22, reply, tail, io.input);
    } else {
      assert [] + Flatten(io.input) == Flatten(io.input);
      ReplyReadByCut(reply, tail, [], io.input);
    }
  }

  /** The client's way past the choice, and past the status of its credentials. */
  lemma ChoiceGranted(form: Form, cfg: Config, input: seq<Segment>, m: Octet, after: seq<Octet>) returns (io: Io)
    requires cfg.Valid() && (m == 0 || (m == 2 && cfg.opt.Userpass?))
    requires Clean(input) && Flatten(input) == [5, m] + after
    ensures Run(form, cfg, Io(input, [], [], []))
            == RunFrom(form, cfg, if m == 2 then WriteUserpass else WriteRequest, io)
    ensures io.faults == [] && Clean(io.input) && Flatten(io.input) == after
    ensures forall n: nat | n > 0 :: CutAt(io.input, n) <==> CutAt(input, 2 + n)
  {
    hide ComposedRead, Flatten, Greeting, CutAt;
    PairRead(input, [5, m], after);
    var s := Hand(Io(input, [], [], []), Greeting(cfg.opt));
    io := s.io.(input := ComposedRead(TransferAll, 2, [], Success, input).rest);
    assert Run(form, cfg, Io(input, [], [], [])) == RunFrom(form, cfg, ReadChoice, s.io);
  }

  lemma StatusGranted(form: Form, cfg: Config, io: Io, after: seq<Octet>) returns (io': Io)
    requires WriteUserpass.Fits(cfg) && io.faults == []
    requires Clean(io.input) && Flatten(io.input) == [1, 0] + after
    ensures RunFrom(form, cfg, WriteUserpass, io) == RunFrom(form, cfg, WriteRequest, io')
    ensures io'.faults == [] && Clean(io'.input) && Flatten(io'.input) == after
    ensures forall n: nat | n > 0 :: CutAt(io'.input, n) <==> CutAt(io.input, 2 + n)
  {
    hide ComposedRead, Flatten, UserpassRequest, CutAt;
    PairRead(io.input, [1, 0], after);
    var s := Hand(io, UserpassRequest(cfg.opt));
    io' := s.io.(input := ComposedRead(TransferAll, 2, [], Success, io.input).rest);
    assert RunFrom(form, cfg, WriteUserpass, io) == RunFrom(form, cfg, ReadUserpass, s.io);
  }

  /** What the cut decides, exactly: on an error-free stream that holds the messages of a granting server and
      anything behind them, the client succeeds, with the endpoint of the reply, and leaves what follows
      unread, if the reply is one of IPv6 or an arrival ends with it. Otherwise its read takes in octets from
      behind the reply, and it reports a reply of the wrong size. */
  lemma SuccessByCut(form: Form, cfg: Config, input: seq<Segment>,
                     pre: seq<Octet>, reply: seq<Octet>, tail: seq<Octet>)
    requires cfg.Valid() && Preamble(cfg.opt, pre) && Granted(reply)
    requires Clean(input) && Flatten(input) == pre + reply + tail
    ensures ByCut(Run(form, cfg, Io(input, [], [], [])), reply, tail, CutAt(input, |pre| + 10))
  {
    hide Run, RunFrom, Flatten, Granted, ByCut, CutAt;
    if pre == [5, 0] {
      assert pre + reply + tail == [5, 0] + (reply + tail);
      var io := ChoiceGranted(form, cfg, input, 0, reply + tail);
      ReplyByCut(form, cfg, io, reply, tail);
    } else {
      assert pre + reply + tail == [5, 2] + ([1, 0] + (reply + tail));
      var io := ChoiceGranted(form, cfg, input, 2, [1, 0] + (reply + tail));
      var io' := StatusGranted(form, cfg, io, reply + tail);
      ReplyByCut(form, cfg, io', reply, tail);
    }
  }

  /** Chunking independence of the whole handshake: with nothing behind an IPv4 reply, every cut of the
      messages of a granting server makes the client succeed. */
  lemma SucceedsForEveryCut(form: Form, cfg: Config, input: seq<Segment>,
                            pre: seq<Octet>, reply: seq<Octet>, tail: seq<Octet>)
    requires cfg.Valid() && Preamble(cfg.opt, pre) && Granted(reply) && (|reply| == 22 || tail == [])
    requires Clean(input) && Flatten(input) == pre + reply + tail
    ensures var out := Run(form, cfg, Io(input, [], [], []));
            out.ec == Socks(0) && out.ep == GrantedEndpoint(reply) && Flatten(out.io.input) == tail
  {
    SuccessByCut(form, cfg, input, pre, reply, tail);
    CutAtEnd(input);
  }

  /** A reply that is lost on the client: one relayed octet arrives together with it. */
  lemma ReplyTakenTooFar(form: Form)
    ensures var input := [Event([5, 0, 5, 0, 0, 1, 127, 0, 0, 1, 4, 56, 7], Success)];
            Run(form, Config(NoAuth, Ip(UNSPECIFIED)), Io(input, [], [], [])).ec == BAD_REPLY_SIZE
  {
    hide Run;
    var reply := [5, 0, 0, 1, 127, 0, 0, 1, 4, 56];
    var input: seq<Segment> := [Event([5, 0] + reply + [7], Success)];
    assert [5, 0] + reply + [7] == [5, 0, 5, 0, 0, 1, 127, 0, 0, 1, 4, 56, 7];
    SuccessByCut(form, Config(NoAuth, Ip(UNSPECIFIED)), input, [5, 0], reply, [7]);
  }

  // ---------------------------------------------------------------- success characterised

  /** The stream holds the messages of a granting server, and no arrival goes on behind an IPv4 reply. */
  ghost predicate Grants(opt: AuthOptions, input: seq<Segment>) {
    exists pre: seq<Octet>, reply: seq<Octet>, tail: seq<Octet> ::
      && Preamble(opt, pre) && Granted(reply) && Flatten(input) == pre + reply + tail
      && (|reply| == 22 || CutAt(input, |pre| + 10))
  }

  /** Success characterised, run by run: on an error-free stream the client succeeds exactly if the octets are
      `05 m` with m offered, `01 00` if m is 02, and a reply with VER 05, REP 00 and ATYP 01 or 04 of the
      matching length, and an arrival ends with the reply if that is one of IPv4. */
  lemma SuccessExactly(form: Form, cfg: Config, input: seq<Segment>)
    requires cfg.Valid() && Clean(input)
    ensures !Run(form, cfg, Io(input, [], [], [])).ec.Failed() <==> Grants(cfg.opt, input)
  {
    hide Run, Flatten, CutAt, Granted;
    var io := Io(input, [], [], []);
    if !Run(form, cfg, io).ec.Failed() {
      var pre, reply := SuccessConsumesExactly(form, cfg, io);
      SuccessByCut(form, cfg, input, pre, reply, Flatten(Run(form, cfg, io).io.input));
    } else if Grants(cfg.opt, input) {
      var pre: seq<Octet>, reply: seq<Octet>, tail: seq<Octet> :|
        && Preamble(cfg.opt, pre) && Granted(reply) && Flatten(input) == pre + reply + tail
        && (|reply| == 22 || CutAt(input, |pre| + 10));
      SuccessByCut(form, cfg, input, pre, reply, tail);
    }
  }

  /** Octets that make the client succeed however they are cut: nothing stands behind an IPv4 reply. */
  ghost predicate Accepted(opt: AuthOptions, octets: seq<Octet>) {
    exists pre: seq<Octet>, reply: seq<Octet>, tail: seq<Octet> ::
      Preamble(opt, pre) && Granted(reply) && octets == pre + reply + tail && (|reply| == 22 || tail == [])
  }

  /** All octets in one arrival. */
  function Single(octets: seq<Octet>): (r: seq<Segment>)
    ensures Clean(r) && Flatten(r) == octets
    ensures forall n: nat | 0 < n < |octets| :: !CutAt(r, n)
  {
    if octets == [] then [] else [Event(octets, Success)]
  }

  lemma OneArrival(opt: AuthOptions, octets: seq<Octet>)
    requires Grants(opt, Single(octets))
    ensures Accepted(opt, octets)
  {
    hide Flatten, CutAt;
    var pre: seq<Octet>, reply: seq<Octet>, tail: seq<Octet> :|
      && Preamble(opt, pre) && Granted(reply) && octets == pre + reply + tail
      && (|reply| == 22 || CutAt(Single(octets), |pre| + 10));
    assert |reply| == 22 || tail == [];
  }

  /** Success characterised for all cuts together. */
  lemma SuccessCharacterised(form: Form, cfg: Config, octets: seq<Octet>)
    requires cfg.Valid()
    ensures Accepted(cfg.opt, octets)
            <==> forall input: seq<Segment> | Clean(input) && Flatten(input) == octets ::
                   !Run(form, cfg, Io(input, [], [], [])).ec.Failed()
  {
    hide Run, Flatten, CutAt, Granted;
    SuccessExactly(form, cfg, Single(octets));
    if Grants(cfg.opt, Single(octets)) { OneArrival(cfg.opt, octets); }
    if Accepted(cfg.opt, octets) {
      var pre: seq<Octet>, reply: seq<Octet>, tail: seq<Octet> :|
        Preamble(cfg.opt, pre) && Granted(reply) && octets == pre + reply + tail && (|reply| == 22 || tail == []);
      forall input: seq<Segment> | Clean(input) && Flatten(input) == octets
        ensures !Run(form, cfg, Io(input, [], [], [])).ec.Failed()
      {
        SucceedsForEveryCut(form, cfg, input, pre, reply, tail);
      }
    }
  }

  /** Every failing run returns the default endpoint. */
  lemma {:induction false} FailureReturnsDefault(form: Form, cfg: Config, pc: Pc, io: Io)
    requires pc.Fits(cfg) && (pc.Complete? && pc.ec.Failed() ==> pc.ep == UNSPECIFIED)
    ensures var out := RunFrom(form, cfg, pc, io); out.ec.Failed() ==> out.ep == UNSPECIFIED
    decreases pc.Rank()
  {
    if pc.Writing() {
      var s := Hand(io, Message(cfg, pc));
      FailureReturnsDefault(form, cfg, AfterWrite(pc, s.ec), s.io);
    } else if pc.Reading() {
      var r := ComposedRead(pc.Cond(), pc.Size(), [], Success, io.input);
      if pc.ReadReply? && (|r.data| == 10 || |r.data| == 22) { DecodeReplyGrants(r.data); }
      FailureReturnsDefault(form, cfg, AfterRead(form, cfg, pc, r.ec, r.data), io.(input := r.rest));
    }
  }

  // ---------------------------------------------------------------- the two forms

  /** The outcome of the read of the user/pass reply, if the run comes to it; the same for both forms. */
  function UserpassRead(cfg: Config, io: Io): Option<Received>
    requires cfg.Valid()
  {
    var s := Hand(io, Greeting(cfg.opt));
    var r := ComposedRead(TransferAll, 2, [], Success, s.io.input);
    if s.ec.Failed() || !(cfg.opt.Userpass? && r.data == [5, 2] && r.ec == Success) then None
    else
      var s2 := Hand(s.io.(input := r.rest), UserpassRequest(cfg.opt));
      if s2.ec.Failed() then None else Some(ComposedRead(TransferAll, 2, [], Success, s2.io.input))
  }

  /** The read ended without error, or at end of file without an accepting reply, or with an error that
      looking at the reply does not replace. */
  predicate SameVerdict(r: Received) {
    if !r.ec.Failed() then true
    else if r.ec == Eof then r.data != [1, 0]
    else r.data == [1, 0] || r.ec == UserpassVerdict(r.data, Success)
  }

  /** The stream state at which the user/pass reply is read. */
  lemma RunsToUserpass(form: Form, cfg: Config, io: Io) returns (io': Io)
    requires cfg.Valid() && UserpassRead(cfg, io).Some?
    ensures ReadUserpass.Fits(cfg)
    ensures Run(form, cfg, io) == RunFrom(form, cfg, ReadUserpass, io')
    ensures UserpassRead(cfg, io).value == ComposedRead(TransferAll, 2, [], Success, io'.input)
    ensures var s := Hand(io, Greeting(cfg.opt));
            var r := ComposedRead(TransferAll, 2, [], Success, s.io.input);
            io' == Hand(s.io.(input := r.rest), UserpassRequest(cfg.opt)).io
  {
    var s := Hand(io, Greeting(cfg.opt));
    var r := ComposedRead(TransferAll, 2, [], Success, s.io.input);
    var io2 := s.io.(input := r.rest);
    assert Run(form, cfg, io) == RunFrom(form, cfg, ReadChoice, s.io) == RunFrom(form, cfg, WriteUserpass, io2);
    io' := Hand(io2, UserpassRequest(cfg.opt)).io;
    assert RunFrom(form, cfg, WriteUserpass, io2) == RunFrom(form, cfg, ReadUserpass, io');
  }

  lemma SameFromRequest(cfg: Config, io: Io)
    requires cfg.Valid()
    ensures RunFrom(Sync, cfg, WriteRequest, io) == RunFrom(Async, cfg, WriteRequest, io)
    ensures |RunFrom(Sync, cfg, WriteRequest, io).io.handed| == |io.handed| + 1
  {
    hide ComposedRead, Request, DecodeReply;
    var s := Hand(io, Request(cfg.target));
    if !s.ec.Failed() {
      var r := ComposedRead(ReplyCond, 22, [], Success, s.io.input);
      forall form: Form
        ensures RunFrom(form, cfg, WriteRequest, io)
                == RunFrom(form, cfg, AfterRead(form, cfg, ReadReply, r.ec, r.data), s.io.(input := r.rest))
      {
        assert RunFrom(form, cfg, WriteRequest, io) == RunFrom(form, cfg, ReadReply, s.io);
      }
    }
  }

  lemma ChoiceLeads(form: Form, cfg: Config, ec: ErrorCode, got: seq<Octet>)
    requires cfg.Valid() && |got| <= 2 && (ec == Success || ec.Failed())
    ensures var pc := AfterRead(form, cfg, ReadChoice, ec, got);
            && (pc == WriteUserpass <==> cfg.opt.Userpass? && got == [5, 2] && ec == Success)
            && (pc.Complete? || pc == WriteRequest || pc == WriteUserpass)
            && pc == AfterRead(Sync, cfg, ReadChoice, ec, got)
  {
  }

  lemma SameWithoutUserpass(cfg: Config, io: Io)
    requires cfg.Valid() && UserpassRead(cfg, io).None?
    ensures Run(Sync, cfg, io) == Run(Async, cfg, io)
  {
    hide ComposedRead, Greeting, UserpassRequest, AfterRead;
    var s := Hand(io, Greeting(cfg.opt));
    if !s.ec.Failed() {
      var r := ComposedRead(TransferAll, 2, [], Success, s.io.input);
      var io2 := s.io.(input := r.rest);
      var pc := AfterRead(Sync, cfg, ReadChoice, r.ec, r.data);
      forall form: Form ensures Run(form, cfg, io) == RunFrom(form, cfg, pc, io2) {
        ChoiceLeads(form, cfg, r.ec, r.data);
        assert Run(form, cfg, io) == RunFrom(form, cfg, ReadChoice, s.io);
      }
      ChoiceLeads(Sync, cfg, r.ec, r.data);
      if pc == WriteRequest { SameFromRequest(cfg, io2); }
    }
  }

  /** From the read of the user/pass reply on. */
  lemma UserpassReadForms(cfg: Config, io: Io)
    requires ReadUserpass.Fits(cfg)
    ensures var r := ComposedRead(TransferAll, 2, [], Success, io.input);
            var a, s := RunFrom(Async, cfg, ReadUserpass, io), RunFrom(Sync, cfg, ReadUserpass, io);
            && (s == a <==> SameVerdict(r))
            && (!(r.ec == Eof && r.data == [1, 0])
                ==> s.io == a.io && s.ep == a.ep && s.ec.Failed() == a.ec.Failed())
  {
    hide ComposedRead, Flatten, Request;
    var r := ComposedRead(TransferAll, 2, [], Success, io.input);
    var io' := io.(input := r.rest);
    SameFromRequest(cfg, io');
    var pcs, pca := AfterRead(Sync, cfg, ReadUserpass, r.ec, r.data), AfterRead(Async, cfg, ReadUserpass, r.ec, r.data);
    assert RunFrom(Sync, cfg, ReadUserpass, io) == RunFrom(Sync, cfg, pcs, io');
    assert RunFrom(Async, cfg, ReadUserpass, io) == RunFrom(Async, cfg, pca, io');
    assert r.ec == Success || r.ec.Failed();
  }

  /** The coroutine refines the blocking form, and exactly where it does: result, endpoint, octets written
      and octets left agree in every run except those in which the read of the user/pass reply ends at end
      of file with an accepting reply (only the coroutine goes on), or with another error that the verdict
      on the reply replaces (only the coroutine looks at the reply). */
  lemma FormsAgreeExactly(cfg: Config, io: Io)
    requires cfg.Valid()
    ensures Run(Sync, cfg, io) == Run(Async, cfg, io)
            <==> (UserpassRead(cfg, io).Some? ==> SameVerdict(UserpassRead(cfg, io).value))
  {
    if UserpassRead(cfg, io).None? {
      SameWithoutUserpass(cfg, io);
    } else {
      var io' := RunsToUserpass(Sync, cfg, io);
      var io'' := RunsToUserpass(Async, cfg, io);
      UserpassReadForms(cfg, io');
    }
  }

  /** Even where the error codes differ, the octets written and left, success and the endpoint agree, unless
      the user/pass reply accepts together with end of file and the coroutine alone goes on. */
  lemma FormsAgreeButForCode(cfg: Config, io: Io)
    requires cfg.Valid()
    ensures var a, s := Run(Async, cfg, io), Run(Sync, cfg, io);
            (UserpassRead(cfg, io).Some? ==> var r := UserpassRead(cfg, io).value; !(r.ec == Eof && r.data == [1, 0]))
            ==> s.io == a.io && s.ep == a.ep && s.ec.Failed() == a.ec.Failed()
  {
    if UserpassRead(cfg, io).None? {
      SameWithoutUserpass(cfg, io);
    } else {
      var io' := RunsToUserpass(Sync, cfg, io);
      var io'' := RunsToUserpass(Async, cfg, io);
      UserpassReadForms(cfg, io');
    }
  }

  /** Two octets that arrive with an error are read together with it. */
  lemma PairArrives(pair: seq<Octet>, ec: ErrorCode, rest: seq<Segment>)
    requires |pair| == 2 && (ec == Success || ec.Failed())
    ensures ComposedRead(TransferAll, 2, [], Success, [Event(pair, ec)] + rest) == Received(pair, ec, rest)
  {
  }

  /** A stream on which the two forms differ: the server accepts the password and closes. */
  lemma FormsDiffer()
    ensures var cfg := Config(Userpass([97], [98]), Ip(UNSPECIFIED));
            var io := Io([Event([5, 2], Success)] + [Event([1, 0], Eof)], [], [], []);
            Run(Sync, cfg, io) != Run(Async, cfg, io)
  {
    hide ComposedRead;
    var cfg := Config(Userpass([97], [98]), Ip(UNSPECIFIED));
    var last: seq<Segment> := [Event([1, 0], Eof)];
    var io := Io([Event([5, 2], Success)] + last, [], [], []);
    PairArrives([5, 2], Success, last);
    assert last + [] == last;
    PairArrives([1, 0], Eof, []);
    FormsAgreeExactly(cfg, io);
  }
}
