/** What the client reports, and what it sends, told from the octets of the stream: a reference for every outcome,
    in the codes of the library. */
module Diagnosis {
  import opened Octets
  import opened Wire
  import opened Transport
  import opened Client
  import opened ClientTheorems
  import opened ClientV4

  // ---------------------------------------------------------------- error-free streams

  /** A reply as read: its size, VER, REP and ATYP decide, in this order. */
  function ReplyMeans(v: seq<Octet>): Decoded {
    if |v| != 10 && |v| != 22 then Decoded(Socks(0xA0), UNSPECIFIED)
    else if v[0] != 5 then Decoded(Socks(0xA1), UNSPECIFIED)
    else if 1 <= v[1] <= 8 then Decoded(Socks(v[1]), UNSPECIFIED)
    else if v[1] > 8 then Decoded(Socks(0xFF), UNSPECIFIED)
    else if v[3] == 1 && |v| == 10 then Decoded(Socks(0), V4(v[4..8], PortFrom(v[8], v[9])))
    else if v[3] == 4 && |v| == 22 then Decoded(Socks(0), V6(v[4..20], PortFrom(v[20], v[21])))
    else if v[3] == 1 || v[3] == 4 then Decoded(Socks(0xA0), UNSPECIFIED)
    else Decoded(Socks(0xA5), UNSPECIFIED)
  }

  /** What the reply read takes of the octets there are: ten if ATYP is IPv4 and an arrival ends with them, and
      else as many of 22 as there are. */
  function ReplyTaken(v: seq<Octet>, cut: bool): seq<Octet> {
    if |v| >= 10 && v[3] == 1 && cut then v[..10] else v[..Min(22, |v|)]
  }

  /** How far the server's answers before the reply go. */
  function Answers(w: seq<Octet>): nat { if |w| >= 2 && w[1] == 2 then 4 else 2 }

  /** The result of the handshake on a stream of these octets. */
  function Meaning(opt: AuthOptions, w: seq<Octet>, cut: bool): Decoded {
    if |w| < 2 then Decoded(Socks(0xA0), UNSPECIFIED)
    else if w[0] != 5 then Decoded(Socks(0xA1), UNSPECIFIED)
    else if w[1] !in Methods(opt) then Decoded(Socks(0xA2), UNSPECIFIED)
    else if w[1] == 0 then ReplyMeans(ReplyTaken(w[2..], cut))
    else if |w| < 4 then Decoded(Socks(0xA0), UNSPECIFIED)
    else if w[2] != 1 then Decoded(Socks(0xA1), UNSPECIFIED)
    else if w[3] != 0 then Decoded(Socks(0xA6), UNSPECIFIED)
    else ReplyMeans(ReplyTaken(w[4..], cut))
  }

  /** The messages that the client sends for it. */
  function Sends(cfg: Config, w: seq<Octet>): seq<seq<Octet>>
    requires cfg.Valid()
  {
    if [5, 0] <= w then [Greeting(cfg.opt), Request(cfg.target)]
    else if cfg.opt.Userpass? && [5, 2, 1, 0] <= w then
      [Greeting(cfg.opt), UserpassRequest(cfg.opt), Request(cfg.target)]
    else if cfg.opt.Userpass? && [5, 2] <= w then [Greeting(cfg.opt), UserpassRequest(cfg.opt)]
    else [Greeting(cfg.opt)]
  }

  /** A read of a fixed size takes as much of it as there is. */
  lemma {:induction false} FixedRead(size: nat, got: seq<Octet>, input: seq<Segment>)
    requires |got| <= size <= 65536 && Clean(input)
    ensures var w, r := got + Flatten(input), ComposedRead(TransferAll, size, got, Success, input);
            && Clean(r.rest) && r.data == w[..Min(size, |w|)] && Flatten(r.rest) == w[|r.data|..]
            && r.ec == if |w| < size then Eof else Success
    decreases size - |got|
  {
    hide ComposedRead, Limit, Stops, ReadSome;
    ComposedRound(TransferAll, size, got, Success, input);
    FixedLimit(size, got);
    if |got| < size {
      var some := ReadSome(input, size - |got|);
      if input == [] {
        EndOfStream(size - |got|);
        ComposedRound(TransferAll, size, got + some.data, Eof, []);
        FailedStops(TransferAll, size, Eof, got);
        assert got + [] == got;
      } else {
        FixedRead(size, got + some.data, some.rest);
        assert got + some.data + Flatten(some.rest) == got + Flatten(input);
      }
    }
  }

  lemma FixedLimit(size: nat, got: seq<Octet>)
    requires |got| <= size <= 65536
    ensures Stops(TransferAll, size, Success, got) <==> |got| == size
    ensures Min(Limit(TransferAll, Success, got, size), size - |got|) == size - |got|
  {
  }

  /** The reply read, for every stream and cut. */
  lemma {:induction false} ReplyRead(got: seq<Octet>, input: seq<Segment>)
    requires |got| <= 22 && Clean(input) && !(|got| == 10 && got[3] == 1)
    ensures var w, r := got + Flatten(input), ComposedRead(ReplyCond, 22, got, Success, input);
            && (r.ec == Success || r.ec == Eof)
            && r.data == ReplyTaken(w, |got| < 10 && CutAt(input, 10 - |got|))
    decreases 22 - |got|
  {
    hide ComposedRead, Limit, Stops, ReadSome, CutAt;
    ComposedRound(ReplyCond, 22, got, Success, input);
    ReplyPauses(got);
    var w := got + Flatten(input);
    if |got| < 22 {
      var some := ReadSome(input, 22 - |got|);
      var got' := got + some.data;
      if input == [] {
        EndOfStream(22 - |got|);
        FailedStops(ReplyCond, 22, Eof, got);
        assert got' == got == w;
        ComposedRound(ReplyCond, 22, got, Eof, []);
      } else {
        assert got' + Flatten(some.rest) == w;
        if |got| < 10 { CutAfter(input, 22 - |got|, 10 - |got|); }
        if |got'| == 10 && got'[3] == 1 {
          ReplyStops(got', 10);
          ComposedRound(ReplyCond, 22, got', Success, some.rest);
          assert got' == got'[..10] == w[..10];
        } else {
          ReplyRead(got', some.rest);
        }
      }
    } else {
      assert got == w[..22];
    }
  }

  lemma ReplyPauses(got: seq<Octet>)
    requires |got| <= 22 && !(|got| == 10 && got[3] == 1)
    ensures Stops(ReplyCond, 22, Success, got) <==> |got| == 22
    ensures |got| < 22 ==> Limit(ReplyCond, Success, got, 22) == 22 - |got|
  {
  }

  lemma ReplyMeansDecoded(v: seq<Octet>)
    requires |v| == 10 || |v| == 22
    ensures DecodeReply(v) == ReplyMeans(v)
  {
  }

  /** The rest of a run from the request on. */
  lemma RequestDiagnosed(form: Form, cfg: Config, io: Io)
    requires cfg.Valid() && io.faults == [] && Clean(io.input)
    ensures var out := RunFrom(form, cfg, WriteRequest, io);
            && Decoded(out.ec, out.ep) == ReplyMeans(ReplyTaken(Flatten(io.input), CutAt(io.input, 10)))
            && out.io.handed == io.handed + [Request(cfg.target)]
  {
    hide ComposedRead, Flatten, Request, DecodeReply, ReplyMeans, ReplyTaken, CutAt;
    ReplyRead([], io.input);
    assert [] + Flatten(io.input) == Flatten(io.input);
    var v := ComposedRead(ReplyCond, 22, [], Success, io.input).data;
    if |v| == 10 || |v| == 22 { ReplyMeansDecoded(v); } else { WrongSize(v); }
  }

  lemma WrongSize(v: seq<Octet>)
    requires |v| != 10 && |v| != 22
    ensures ReplyMeans(v) == Decoded(BAD_REPLY_SIZE, UNSPECIFIED)
  {
  }

  /** The stream after two octets were read as far as they were there. */
  lemma PairTaken(input: seq<Segment>)
    requires Clean(input)
    ensures var w, r := Flatten(input), ComposedRead(TransferAll, 2, [], Success, input);
            && Clean(r.rest) && (|w| < 2 ==> r.data == w && r.ec == Eof)
            && (|w| >= 2 ==> r.data == [w[0], w[1]] && r.ec == Success && Flatten(r.rest) == w[2..])
            && (|w| >= 2 ==> forall n: nat | n > 0 :: CutAt(r.rest, n) <==> CutAt(input, 2 + n))
  {
    hide ComposedRead, Flatten, CutAt;
    FixedRead(2, [], input);
    assert [] + Flatten(input) == Flatten(input);
    forall n: nat | n > 0 && |Flatten(input)| >= 2
      ensures CutAt(ComposedRead(TransferAll, 2, [], Success, input).rest, n) <==> CutAt(input, 2 + n)
    {
      ReadKeepsCuts(TransferAll, 2, [], Success, input, n);
    }
  }

  /** The rest of a run from the credentials on: their status. */
  lemma StatusDiagnosed(form: Form, cfg: Config, io: Io) returns (io': Io)
    requires WriteUserpass.Fits(cfg) && io.faults == [] && Clean(io.input)
    ensures io'.faults == [] && Clean(io'.input) && io'.handed == io.handed + [UserpassRequest(cfg.opt)]
    ensures var w, all := Flatten(io.input), RunFrom(form, cfg, WriteUserpass, io);
            if |w| < 2 then all == Outcome(Socks(0xA0), UNSPECIFIED, io')
            else if w[0] != 1 then all == Outcome(Socks(0xA1), UNSPECIFIED, io')
            else if w[1] != 0 then all == Outcome(Socks(0xA6), UNSPECIFIED, io')
            else && all == RunFrom(form, cfg, WriteRequest, io') && Flatten(io'.input) == w[2..]
                 && forall n: nat | n > 0 :: CutAt(io'.input, n) <==> CutAt(io.input, 2 + n)
  {
    hide ComposedRead, Flatten, UserpassRequest, CutAt;
    var s := Hand(io, UserpassRequest(cfg.opt));
    var r := ComposedRead(TransferAll, 2, [], Success, io.input);
    PairTaken(io.input);
    io' := s.io.(input := r.rest);
    assert RunFrom(form, cfg, WriteUserpass, io) == RunFrom(form, cfg, ReadUserpass, s.io)
        == RunFrom(form, cfg, AfterRead(form, cfg, ReadUserpass, r.ec, r.data), io');
  }

  /** A whole run: the choice. */
  lemma ChoiceDiagnosed(form: Form, cfg: Config, input: seq<Segment>) returns (io: Io)
    requires cfg.Valid() && Clean(input)
    ensures io.faults == [] && Clean(io.input) && io.handed == [Greeting(cfg.opt)]
    ensures var w, all := Flatten(input), Run(form, cfg, Io(input, [], [], []));
            if |w| < 2 then all == Outcome(Socks(0xA0), UNSPECIFIED, io)
            else if w[0] != 5 then all == Outcome(Socks(0xA1), UNSPECIFIED, io)
            else if w[1] != 0 && !(w[1] == 2 && cfg.opt.Userpass?) then all == Outcome(Socks(0xA2), UNSPECIFIED, io)
            else && all == RunFrom(form, cfg, if w[1] == 0 then WriteRequest else WriteUserpass, io)
                 && Flatten(io.input) == w[2..]
                 && forall n: nat | n > 0 :: CutAt(io.input, n) <==> CutAt(input, 2 + n)
  {
    hide ComposedRead, Flatten, Greeting, CutAt;
    var start := Io(input, [], [], []);
    var s := Hand(start, Greeting(cfg.opt));
    var r := ComposedRead(TransferAll, 2, [], Success, input);
    PairTaken(input);
    io := s.io.(input := r.rest);
    assert Run(form, cfg, start) == RunFrom(form, cfg, ReadChoice, s.io)
        == RunFrom(form, cfg, AfterRead(form, cfg, ReadChoice, r.ec, r.data), io);
  }

  /** Every outcome on an error-free stream, in both forms: the octets and whether an arrival ends with an IPv4
      reply decide on error code, endpoint, and the messages sent. */
  lemma Diagnosed(form: Form, cfg: Config, input: seq<Segment>)
    requires cfg.Valid() && Clean(input)
    ensures var w, out := Flatten(input), Run(form, cfg, Io(input, [], [], []));
            && Decoded(out.ec, out.ep) == Meaning(cfg.opt, w, CutAt(input, Answers(w) + 10))
            && out.io.handed == Sends(cfg, w)
  {
    hide Run, RunFrom, Flatten, Greeting, UserpassRequest, Request, ReplyMeans, ReplyTaken, CutAt;
    var w := Flatten(input);
    var io := ChoiceDiagnosed(form, cfg, input);
    if |w| >= 2 && w[0] == 5 && w[1] == 0 {
      RequestDiagnosed(form, cfg, io);
    } else if |w| >= 2 && w[0] == 5 && w[1] == 2 && cfg.opt.Userpass? {
      var io' := StatusDiagnosed(form, cfg, io);
      if |w| >= 4 && w[2] == 1 && w[3] == 0 {
        RequestDiagnosed(form, cfg, io');
        assert w[2..][2..] == w[4..];
      }
    }
  }

  /** A refusal is reported with its code: 1 to 8 as they are, any other as 0xFF. */
  lemma RefusalReported(form: Form, cfg: Config, input: seq<Segment>, pre: seq<Octet>, rep: Octet, bnd: Endpoint)
    requires cfg.Valid() && Clean(input) && Preamble(cfg.opt, pre) && rep != 0
    requires Flatten(input) == pre + Reply(rep, bnd)
    ensures var out := Run(form, cfg, Io(input, [], [], []));
            out.ec == Socks(if rep <= 8 then rep else 0xFF) && out.ep == UNSPECIFIED
  {
    hide Run, Flatten, CutAt;
    Diagnosed(form, cfg, input);
    var w := Flatten(input);
    assert w[|pre|..] == Reply(rep, bnd);
    assert w[0] == pre[0] && w[1] == pre[1] && (|pre| == 4 ==> w[2] == pre[2] && w[3] == pre[3]);
  }

  // ---------------------------------------------------------------- streams that fail

  /** The write and the read of one stage: what the stream did. */
  lemma ChoiceDecides(form: Form, cfg: Config, io: Io)
    requires cfg.Valid()
    ensures var s := Hand(io, Greeting(cfg.opt));
            var r := ComposedRead(TransferAll, 2, [], Success, s.io.input);
            var all, io' := Run(form, cfg, io), s.io.(input := r.rest);
            if s.ec.Failed() then all == Outcome(s.ec, UNSPECIFIED, s.io)
            else if r.ec.Failed() && r.ec != Eof then all == Outcome(r.ec, UNSPECIFIED, io')
            else if |r.data| < 2 then all == Outcome(Socks(0xA0), UNSPECIFIED, io')
            else if r.data[0] != 5 then all == Outcome(Socks(0xA1), UNSPECIFIED, io')
            else if r.data[1] !in Methods(cfg.opt) then all == Outcome(Socks(0xA2), UNSPECIFIED, io')
            else if r.ec == Eof then all == Outcome(Eof, UNSPECIFIED, io')
            else all == RunFrom(form, cfg, if r.data[1] == 0 then WriteRequest else WriteUserpass, io')
  {
    hide ComposedRead, Greeting;
    var s := Hand(io, Greeting(cfg.opt));
    if !s.ec.Failed() {
      var r := ComposedRead(TransferAll, 2, [], Success, s.io.input);
      assert Run(form, cfg, io) == RunFrom(form, cfg, ReadChoice, s.io)
          == RunFrom(form, cfg, AfterRead(form, cfg, ReadChoice, r.ec, r.data), s.io.(input := r.rest));
    }
  }

  /** The blocking form reports any error of the read but end of file, then what is wrong with the octets, then
      end of file. The coroutine looks at the octets first, then at the error, and goes on after end of file. */
  lemma CredentialsDecide(form: Form, cfg: Config, io: Io)
    requires WriteUserpass.Fits(cfg)
    ensures var s := Hand(io, UserpassRequest(cfg.opt));
            var r := ComposedRead(TransferAll, 2, [], Success, s.io.input);
            var all, io' := RunFrom(form, cfg, WriteUserpass, io), s.io.(input := r.rest);
            if s.ec.Failed() then all == Outcome(s.ec, UNSPECIFIED, s.io)
            else if form.Sync? && r.ec.Failed() && r.ec != Eof then all == Outcome(r.ec, UNSPECIFIED, io')
            else if |r.data| < 2 then all == Outcome(Socks(0xA0), UNSPECIFIED, io')
            else if r.data[0] != 1 then all == Outcome(Socks(0xA1), UNSPECIFIED, io')
            else if r.data[1] != 0 then all == Outcome(Socks(0xA6), UNSPECIFIED, io')
            else if r.ec.Failed() && !(form.Async? && r.ec == Eof) then all == Outcome(r.ec, UNSPECIFIED, io')
            else all == RunFrom(form, cfg, WriteRequest, io')
  {
    hide ComposedRead, UserpassRequest;
    var s := Hand(io, UserpassRequest(cfg.opt));
    if !s.ec.Failed() {
      var r := ComposedRead(TransferAll, 2, [], Success, s.io.input);
      assert RunFrom(form, cfg, WriteUserpass, io) == RunFrom(form, cfg, ReadUserpass, s.io)
          == RunFrom(form, cfg, AfterRead(form, cfg, ReadUserpass, r.ec, r.data), s.io.(input := r.rest));
    }
  }

  /** A reply counts even if the stream ends with it; any other error of the read counts more. */
  lemma RequestDecides(form: Form, cfg: Config, io: Io)
    requires cfg.Valid()
    ensures var s := Hand(io, Request(cfg.target));
            var r := ComposedRead(ReplyCond, 22, [], Success, s.io.input);
            var all, io' := RunFrom(form, cfg, WriteRequest, io), s.io.(input := r.rest);
            if s.ec.Failed() then all == Outcome(s.ec, UNSPECIFIED, s.io)
            else if r.ec.Failed() && r.ec != Eof then all == Outcome(r.ec, UNSPECIFIED, io')
            else all == Outcome(ReplyMeans(r.data).ec, ReplyMeans(r.data).ep, io')
  {
    hide ComposedRead, Request, DecodeReply, ReplyMeans;
    var s := Hand(io, Request(cfg.target));
    if !s.ec.Failed() {
      var r := ComposedRead(ReplyCond, 22, [], Success, s.io.input);
      if |r.data| == 10 || |r.data| == 22 { ReplyMeansDecoded(r.data); } else { WrongSize(r.data); }
      assert RunFrom(form, cfg, WriteRequest, io) == RunFrom(form, cfg, ReadReply, s.io);
    }
  }

  /** Where the two forms part, in whole runs that come to the read of the user/pass reply. After end of file
      with an accepting reply only the coroutine sends the request; at any other error the blocking form reports
      it, and the coroutine what is wrong with the octets, if anything is. */
  lemma FormsPart(cfg: Config, io: Io)
    requires cfg.Valid() && UserpassRead(cfg, io).Some?
    ensures var r, s, a := UserpassRead(cfg, io).value, Run(Sync, cfg, io), Run(Async, cfg, io);
            var credentials := io.handed + [Greeting(cfg.opt), UserpassRequest(cfg.opt)];
            && (r.data == [1, 0] && r.ec == Eof ==>
                  && s.ec == Eof && s.ep == UNSPECIFIED && s.io.handed == credentials
                  && a.io.handed == credentials + [Request(cfg.target)])
            && (r.ec.Failed() && r.ec != Eof ==>
                  && s.ec == r.ec && s.ep == a.ep == UNSPECIFIED && s.io == a.io && s.io.handed == credentials
                  && a.ec == (if |r.data| != 2 then Socks(0xA0) else if r.data[0] != 1 then Socks(0xA1)
                              else if r.data[1] != 0 then Socks(0xA6) else r.ec))
            && (r.data == [1, 0] && !r.ec.Failed() ==>
                  s == a && s.io.handed == credentials + [Request(cfg.target)])
            && (r.data != [1, 0] && (r.ec.Failed() ==> r.ec == Eof) ==>
                  && s == a && s.io.handed == credentials
                  && s.ec == (if |r.data| != 2 then Socks(0xA0) else if r.data[0] != 1 then Socks(0xA1)
                              else Socks(0xA6)))
  {
    hide ComposedRead, Greeting, UserpassRequest, Request, RunFrom;
    var s := Hand(io, Greeting(cfg.opt));
    var io' := s.io.(input := ComposedRead(TransferAll, 2, [], Success, s.io.input).rest);
    ChoiceDecides(Sync, cfg, io);
    ChoiceDecides(Async, cfg, io);
    CredentialsDecide(Sync, cfg, io');
    CredentialsDecide(Async, cfg, io');
    var s2 := Hand(io', UserpassRequest(cfg.opt));
    var io'' := s2.io.(input := ComposedRead(TransferAll, 2, [], Success, s2.io.input).rest);
    SameFromRequest(cfg, io'');
    RequestHands(cfg, io'');
    HandedOver(io.handed, Greeting(cfg.opt), UserpassRequest(cfg.opt));
  }

  /** The request is handed over, whatever becomes of it. */
  lemma RequestHands(cfg: Config, io: Io)
    requires cfg.Valid()
    ensures forall form: Form :: RunFrom(form, cfg, WriteRequest, io).io.handed == io.handed + [Request(cfg.target)]
  {
    hide RunFrom, ComposedRead, Request, ReplyMeans;
    forall form: Form
      ensures RunFrom(form, cfg, WriteRequest, io).io.handed == io.handed + [Request(cfg.target)]
    {
      RequestDecides(form, cfg, io);
    }
  }

  // ---------------------------------------------------------------- SOCKS4

  /** A SOCKS4 reply as read: its size, VER and CD decide, in this order. The address is taken one octet
      early. */
  function ReplyV4Means(v: seq<Octet>): Decoded {
    if |v| != 8 then Decoded(Socks(0xA0), UNSPECIFIED)
    else if v[0] != 0 && v[0] != 4 then Decoded(Socks(0xA1), UNSPECIFIED)
    else if v[1] == 90 then Decoded(Socks(90), V4(v[3..7], PortFrom(v[2], v[3])))
    else if v[1] == 91 || v[1] == 92 || v[1] == 93 then Decoded(Socks(v[1]), UNSPECIFIED)
    else Decoded(Socks(0xFF), UNSPECIFIED)
  }

  /** Every outcome of the SOCKS4 client, over every stream. */
  lemma V4Decides(ep: Endpoint, user: seq<Octet>, io: Io)
    ensures var s := Hand(io, RequestV4(ep, user));
            var r := ComposedRead(TransferAll, 8, [], Success, s.io.input);
            var out, io' := RunV4(ep, user, io), s.io.(input := r.rest);
            if s.ec.Failed() then out == Outcome(s.ec, UNSPECIFIED, s.io)
            else if r.ec.Failed() && r.ec != Eof then out == Outcome(r.ec, UNSPECIFIED, io')
            else out == Outcome(ReplyV4Means(r.data).ec, ReplyV4Means(r.data).ep, io')
  {
    hide ComposedRead, RequestV4;
  }

  /** And on an error-free stream, by its first eight octets alone, however it is cut. */
  lemma DiagnosedV4(ep: Endpoint, user: seq<Octet>, input: seq<Segment>)
    requires Clean(input)
    ensures var w, out := Flatten(input), RunV4(ep, user, Io(input, [], [], []));
            Decoded(out.ec, out.ep) == ReplyV4Means(w[..Min(8, |w|)])
  {
    hide ComposedRead, RequestV4, Flatten, ReplyV4Means;
    FixedRead(8, [], input);
    assert [] + Flatten(input) == Flatten(input);
    V4Decides(ep, user, Io(input, [], [], []));
  }
}
