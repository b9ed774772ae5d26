/** The client's course as a whole and octet by octet: each is a run of the other. */
module ClientRefinement {
  import opened Octets
  import opened Wire
  import opened Transport
  import opened Client
  import opened ClientTheorems
  import opened ClientRuns

  /** Within a message, or within a read that goes on, or done. */
  predicate Ready(cfg: Config, s: Session) {
    && s.pc.Fits(cfg)
    && (s.pc.Writing() ==> s.pending == Message(cfg, s.pc) && s.sent < |s.pending|)
    && (s.pc.Reading() ==> |s.got| < s.pc.Size() && !Stops(s.pc.Cond(), s.pc.Size(), Success, s.got))
    && (!s.pc.Writing() ==> s.pending == [] && s.sent == 0)
  }

  /** The rest of a run, from within a read if one is under way. */
  function Rest(form: Form, cfg: Config, s: Session, io: Io): Outcome
    requires Ready(cfg, s)
  {
    if s.pc.Reading() then
      var r := ComposedRead(s.pc.Cond(), s.pc.Size(), s.got, Success, io.input);
      RunFrom(form, cfg, AfterRead(form, cfg, s.pc, r.ec, r.data), io.(input := r.rest))
    else RunFrom(form, cfg, s.pc, io)
  }

  /** The session has written what went out since `start`, and begun what was handed over. */
  predicate Since(start: Io, io: Io, s: Session)
    requires s.sent <= |s.pending|
  {
    io.wire + s.pending[..s.sent] == start.wire + s.w && io.handed == start.handed + s.out
  }

  /** The session has ended as the outcome says. */
  predicate Ends(start: Io, out: Outcome, s: Session) {
    && s.pc == Complete(out.ec, out.ep)
    && out.io.wire == start.wire + s.w
    && out.io.handed == start.handed + Begun(s)
  }

  /** All that was and will be received. */
  function Stream(s: Session, io: Io): seq<Octet> { s.r + Flatten(io.input) }

  lemma EnterReady(cfg: Config, s: Session, pc: Pc)
    requires pc.Fits(cfg)
    ensures Ready(cfg, Enter(cfg, s, pc))
  {
    hide Greeting, UserpassRequest, Request;
    ReadStarts();
  }

  /** A fresh read is the read of the course as a whole. */
  lemma RestFresh(form: Form, cfg: Config, s: Session, io: Io)
    requires Ready(cfg, s) && (s.pc.Reading() ==> s.got == [])
    ensures Rest(form, cfg, s, io) == RunFrom(form, cfg, s.pc, io)
  {
    hide ComposedRead, AfterRead;
  }

  /** One `read_some`, here and there. */
  lemma ReadStep(form: Form, cfg: Config, s: Session, start: Io, io: Io, h: Happening, io': Io)
    requires Ready(cfg, s) && s.pc.Reading() && h.Data? && Enabled(s, h) && Since(start, io, s)
    requires var max := Min(Limit(s.pc.Cond(), Success, s.got, s.pc.Size()), s.pc.Size() - |s.got|);
             0 < max && ReadSome(io.input, max) == Received(h.data, h.ec, io'.input) && io' == io.(input := io'.input)
    ensures var s' := Next(form, cfg, s, h);
            && Ready(cfg, s') && Since(start, io', s') && Rest(form, cfg, s', io') == Rest(form, cfg, s, io)
            && Stream(s', io') == Stream(s, io) && s'.sent == 0
            && (s'.pc.Rank() < s.pc.Rank() || (s'.pc == s.pc && |s'.got| > |s.got|))
  {
    hide ComposedRead, AfterRead, Flatten, Message, Limit, Stops, ReadSome;
    var c, size := s.pc.Cond(), s.pc.Size();
    ComposedRound(c, size, s.got, Success, io.input);
    var got := s.got + h.data;
    ComposedRound(c, size, got, h.ec, io'.input);
    if Stops(c, size, h.ec, got) {
      var pc := AfterRead(form, cfg, s.pc, h.ec, got);
      var s' := s.(got := got, r := s.r + h.data);
      EnterReady(cfg, s', pc);
      RestFresh(form, cfg, Enter(cfg, s', pc), io');
    }
  }

  /** The last piece of a message. */
  lemma WriteStep(form: Form, cfg: Config, s: Session, start: Io, io: Io, k: nat)
    requires Ready(cfg, s) && s.pc.Writing() && Since(start, io, s) && s.sent + k == |s.pending|
    requires !Hand(io, s.pending).ec.Failed()
    ensures var s', io' := Next(form, cfg, s, Out(k, Success)), Hand(io, s.pending).io;
            && Ready(cfg, s') && Since(start, io', s') && Rest(form, cfg, s', io') == Rest(form, cfg, s, io)
            && Stream(s', io') == Stream(s, io) && s'.sent == 0 && s'.pc.Rank() < s.pc.Rank()
  {
    hide Flatten, Greeting, UserpassRequest, Request, ComposedRead;
    var s' := s.(sent := |s.pending|, w := s.w + s.pending[s.sent..], out := s.out + [s.pending]);
    EnterReady(cfg, s', AfterWrite(s.pc, Success));
    Advance(start.wire + s.w, io.wire, s.pending, s.sent, |s.pending|);
    RestFresh(form, cfg, Next(form, cfg, s, Out(k, Success)), Hand(io, s.pending).io);
  }

  /** A message cut off. */
  lemma WriteFails(form: Form, cfg: Config, s: Session, start: Io, io: Io, k: nat)
    requires Ready(cfg, s) && s.pc.Writing() && Since(start, io, s) && s.sent + k <= |s.pending|
    requires Hand(io, s.pending).ec.Failed() && Min(io.faults[0].sent, |s.pending|) == s.sent + k
    ensures var s' := Next(form, cfg, s, Out(k, io.faults[0].ec));
            Ends(start, Rest(form, cfg, s, io), s') && Stream(s', Rest(form, cfg, s, io).io) == Stream(s, io)
  {
    hide Flatten, Greeting, UserpassRequest, Request, ComposedRead;
    Advance(start.wire + s.w, io.wire, s.pending, s.sent, s.sent + k);
  }

  /** Every course is a run octet by octet: one step for each message and each arrival. */
  lemma {:induction false} RestIsDone(form: Form, cfg: Config, s: Session, start: Io, io: Io)
    returns (hs: seq<Happening>)
    requires Ready(cfg, s) && s.sent == 0 && Since(start, io, s)
    ensures CanDo(form, cfg, s, hs)
    ensures var out, end := Rest(form, cfg, s, io), Do(form, cfg, s, hs);
            Ends(start, out, end) && Stream(end, out.io) == Stream(s, io)
    decreases s.pc.Rank(), 22 - |s.got|
  {
    hide Next, Rest, ComposedRead, Limit, Stops, Flatten, Message, Ends, Since;
    hs := [];
    if s.pc.Complete? {
      StillDone(form, cfg, s, start, io);
    } else if s.pc.Writing() && Hand(io, s.pending).ec.Failed() {
      var k := Min(io.faults[0].sent, |s.pending|);
      var h := Out(k, io.faults[0].ec);
      WriteFails(form, cfg, s, start, io, k);
      OneMore(form, cfg, s, h, []);
      hs := [h];
    } else {
      var h, io';
      if s.pc.Writing() {
        h, io' := Out(|s.pending|, Success), Hand(io, s.pending).io;
        WriteStep(form, cfg, s, start, io, |s.pending|);
      } else {
        h, io' := NextArrival(cfg, s, io);
        ReadStep(form, cfg, s, start, io, h, io');
      }
      var rest := RestIsDone(form, cfg, Next(form, cfg, s, h), start, io');
      OneMore(form, cfg, s, h, rest);
      hs := [h] + rest;
    }
  }

  lemma OneMore(form: Form, cfg: Config, s: Session, h: Happening, hs: seq<Happening>)
    requires s.pc.Fits(cfg) && Enabled(s, h) && CanDo(form, cfg, Next(form, cfg, s, h), hs)
    ensures CanDo(form, cfg, s, [h] + hs)
    ensures Do(form, cfg, s, [h] + hs) == Do(form, cfg, Next(form, cfg, s, h), hs)
  {
    hide Next, Enabled;
    assert ([h] + hs)[1..] == hs;
  }

  lemma StillDone(form: Form, cfg: Config, s: Session, start: Io, io: Io)
    requires Ready(cfg, s) && s.pc.Complete? && Since(start, io, s)
    ensures var out := Rest(form, cfg, s, io); Ends(start, out, s) && out.io == io
  {
  }

  lemma NextArrival(cfg: Config, s: Session, io: Io) returns (h: Happening, io': Io)
    requires Ready(cfg, s) && s.pc.Reading()
    ensures h.Data? && Enabled(s, h)
    ensures var max := Min(Limit(s.pc.Cond(), Success, s.got, s.pc.Size()), s.pc.Size() - |s.got|);
            0 < max && ReadSome(io.input, max) == Received(h.data, h.ec, io'.input) && io' == io.(input := io'.input)
  {
    hide Limit, ReadSome, Flatten;
    var some := ReadSome(io.input, Min(Limit(s.pc.Cond(), Success, s.got, s.pc.Size()), s.pc.Size() - |s.got|));
    h, io' := Data(some.data, some.ec), io.(input := some.rest);
  }

  /** And every run octet by octet that comes to its end is such a course: the arrivals are what it read, the
      writes fare as its writes did. */
  lemma {:induction false} DoneIsRest(form: Form, cfg: Config, s: Session, hs: seq<Happening>)
    returns (input: seq<Segment>, faults: seq<Fault>)
    requires Ready(cfg, s) && CanDo(form, cfg, s, hs) && Do(form, cfg, s, hs).pc.Complete?
    ensures forall start: Io, io: Io | io.input == input && io.faults == faults && Since(start, io, s) ::
              var out, end := Rest(form, cfg, s, io), Do(form, cfg, s, hs);
              Ends(start, out, end) && Stream(end, out.io) == Stream(s, io)
    decreases |hs|
  {
    hide Next, Rest, ComposedRead, Limit, Stops, Flatten, Message, Ends, Since, Stream, ReadSome;
    input, faults := [], [];
    if hs == [] {
      forall start: Io, io: Io | io.input == input && io.faults == faults && Since(start, io, s)
        ensures Ends(start, Rest(form, cfg, s, io), s) && Stream(s, Rest(form, cfg, s, io).io) == Stream(s, io)
      {
        StillDone(form, cfg, s, start, io);
      }
    } else {
      var s' := Next(form, cfg, s, hs[0]);
      match hs[0] {
        case Data(data, ec) =>
          ReadReady(form, cfg, s, hs[0]);
          input, faults := DoneIsRest(form, cfg, s', hs[1..]);
          var rest := input;
          input := [Event(data, ec)] + rest;
          forall start: Io, io: Io | io.input == input && io.faults == faults && Since(start, io, s)
            ensures Ends(start, Rest(form, cfg, s, io), Do(form, cfg, s, hs))
            ensures Stream(Do(form, cfg, s, hs), Rest(form, cfg, s, io).io) == Stream(s, io)
          {
            Arrives(s, data, ec, rest);
            ReadStep(form, cfg, s, start, io, hs[0], io.(input := rest));
          }
        case Out(k, ec) =>
          if ec.Failed() {
            faults := [Fault(ec, s.sent + k)];
            NothingAfter(form, cfg, s, hs[0], hs[1..]);
            forall start: Io, io: Io | io.input == input && io.faults == faults && Since(start, io, s)
              ensures Ends(start, Rest(form, cfg, s, io), s') && Stream(s', Rest(form, cfg, s, io).io) == Stream(s, io)
            {
              WriteFails(form, cfg, s, start, io, k);
            }
          } else if s.sent + k < |s.pending| {
            PieceOut(form, cfg, s, k, ec);
            input, faults := DoneIsRest(form, cfg, s', hs[1..]);
            forall start: Io, io: Io | io.input == input && io.faults == faults && Since(start, io, s)
              ensures Ends(start, Rest(form, cfg, s, io), Do(form, cfg, s, hs))
              ensures Stream(Do(form, cfg, s, hs), Rest(form, cfg, s, io).io) == Stream(s, io)
            {
              PieceOutSince(form, cfg, s, start, io, k, ec);
            }
          } else {
            WriteReady(form, cfg, s, k, ec);
            input, faults := DoneIsRest(form, cfg, s', hs[1..]);
            var rest := faults;
            faults := [Fault(Success, 0)] + rest;
            forall start: Io, io: Io | io.input == input && io.faults == faults && Since(start, io, s)
              ensures Ends(start, Rest(form, cfg, s, io), Do(form, cfg, s, hs))
              ensures Stream(Do(form, cfg, s, hs), Rest(form, cfg, s, io).io) == Stream(s, io)
            {
              assert Hand(io, s.pending).io.faults == rest;
              WriteStep(form, cfg, s, start, io, k);
            }
          }
      }
    }
  }

  /** An arrival that the read has room for is taken in whole. */
  lemma Arrives(s: Session, data: seq<Octet>, ec: ErrorCode, rest: seq<Segment>)
    requires s.pc.Reading() && Enabled(s, Data(data, ec))
    requires |s.got| < s.pc.Size() && !Stops(s.pc.Cond(), s.pc.Size(), Success, s.got)
    ensures var max := Min(Limit(s.pc.Cond(), Success, s.got, s.pc.Size()), s.pc.Size() - |s.got|);
            0 < max && ReadSome([Event(data, ec)] + rest, max) == Received(data, ec, rest)
  {
    hide Limit;
    var input: seq<Segment> := [Event(data, ec)] + rest;
    assert input[1..] == rest;
  }

  lemma ReadReady(form: Form, cfg: Config, s: Session, h: Happening)
    requires Ready(cfg, s) && h.Data? && Enabled(s, h)
    ensures Ready(cfg, Next(form, cfg, s, h))
  {
    hide AfterRead, Message, LimitAt;
    if Stops(s.pc.Cond(), s.pc.Size(), h.ec, s.got + h.data) {
      EnterReady(cfg, s.(got := s.got + h.data, r := s.r + h.data), AfterRead(form, cfg, s.pc, h.ec, s.got + h.data));
    }
  }

  lemma WriteReady(form: Form, cfg: Config, s: Session, k: nat, ec: ErrorCode)
    requires Ready(cfg, s) && Enabled(s, Out(k, ec)) && !ec.Failed() && s.sent + k == |s.pending|
    ensures Ready(cfg, Next(form, cfg, s, Out(k, ec)))
    ensures Next(form, cfg, s, Out(k, ec)) == Next(form, cfg, s, Out(k, Success))
  {
    hide Message;
    var s' := s.(sent := |s.pending|, w := s.w + s.pending[s.sent..], out := s.out + [s.pending]);
    EnterReady(cfg, s', AfterWrite(s.pc, Success));
  }

  lemma PieceOut(form: Form, cfg: Config, s: Session, k: nat, ec: ErrorCode)
    requires Ready(cfg, s) && Enabled(s, Out(k, ec)) && !ec.Failed() && s.sent + k < |s.pending|
    ensures var s' := Next(form, cfg, s, Out(k, ec)); Ready(cfg, s') && s'.pc == s.pc
  {
  }

  lemma PieceOutSince(form: Form, cfg: Config, s: Session, start: Io, io: Io, k: nat, ec: ErrorCode)
    requires Ready(cfg, s) && Enabled(s, Out(k, ec)) && !ec.Failed() && s.sent + k < |s.pending| && Since(start, io, s)
    ensures var s' := Next(form, cfg, s, Out(k, ec));
            && Ready(cfg, s') && Since(start, io, s') && Stream(s', io) == Stream(s, io)
            && Rest(form, cfg, s', io) == Rest(form, cfg, s, io)
  {
    hide RunFrom, Flatten, Message;
    Advance(start.wire + s.w, io.wire, s.pending, s.sent, s.sent + k);
  }

  /** After a failed write nothing more is done. */
  lemma NothingAfter(form: Form, cfg: Config, s: Session, h: Happening, hs: seq<Happening>)
    requires s.pc.Fits(cfg) && h.Out? && h.ec.Failed() && Enabled(s, h) && CanDo(form, cfg, Next(form, cfg, s, h), hs)
    ensures hs == []
  {
    hide Message;
  }

  // ---------------------------------------------------------------- both together

  /** The two views of the client agree: its course over a stream is an octet-by-octet run with the same
      result, octets written, messages begun and octets consumed. */
  lemma RunIsDone(form: Form, cfg: Config, io: Io) returns (hs: seq<Happening>)
    requires cfg.Valid()
    ensures CanDo(form, cfg, Init(cfg), hs)
    ensures var out, end := Run(form, cfg, io), Do(form, cfg, Init(cfg), hs);
            Ends(io, out, end) && Flatten(io.input) == end.r + Flatten(out.io.input)
  {
    hide RunFrom, Flatten;
    StartReady(cfg, io);
    RestFresh(form, cfg, Init(cfg), io);
    hs := RestIsDone(form, cfg, Init(cfg), io, io);
  }

  /** And every octet-by-octet run that comes to an end is the course over some stream. */
  lemma DoneIsRun(form: Form, cfg: Config, hs: seq<Happening>) returns (io: Io)
    requires cfg.Valid() && CanDo(form, cfg, Init(cfg), hs) && Do(form, cfg, Init(cfg), hs).pc.Complete?
    ensures var out, end := Run(form, cfg, io), Do(form, cfg, Init(cfg), hs);
            Ends(io, out, end) && Flatten(io.input) == end.r + Flatten(out.io.input)
  {
    hide RunFrom, Flatten;
    StartReady(cfg, Io([], [], [], []));
    var input, faults := DoneIsRest(form, cfg, Init(cfg), hs);
    io := Io(input, faults, [], []);
    StartReady(cfg, io);
    RestFresh(form, cfg, Init(cfg), io);
  }

  lemma StartReady(cfg: Config, io: Io)
    requires cfg.Valid()
    ensures Ready(cfg, Init(cfg)) && Since(io, io, Init(cfg)) && Stream(Init(cfg), io) == Flatten(io.input)
  {
    hide Flatten;
  }

  /** What is safe octet by octet is safe for the course as a whole: the messages handed over are the first ones
      of a complete run, and what went out is a prefix of them. */
  lemma HandsOverInOrder(form: Form, cfg: Config, io: Io) returns (begun: seq<seq<Octet>>, pre: seq<Octet>)
    requires cfg.Valid() && io.wire == [] && io.handed == []
    ensures Preamble(cfg.opt, pre) && begun <= Script(cfg, pre)
    ensures var out := Run(form, cfg, io); out.io.handed == begun && out.io.wire <= Joined(begun)
  {
    hide Run, Flatten, Do, CanDo, Joined;
    var hs := RunIsDone(form, cfg, io);
    ClientRunSafety(form, cfg, hs);
    begun := Begun(Do(form, cfg, Init(cfg), hs));
    pre :| Preamble(cfg.opt, pre) && begun <= Script(cfg, pre);
  }
}
