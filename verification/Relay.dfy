/** The two relay loops of the server: each reads a chunk of at most 1024 octets from one side and hands it
    to one `write_some` towards the other side. */
module Relay {
  import opened Octets

  datatype Phase = Off | Reading | Writing | Ended

  /** One direction: the chunk at hand, and everything read and written so far. */
  datatype Pipe = Pipe(phase: Phase, chunk: seq<Octet>, read: seq<Octet>, written: seq<Octet>) {
    /** Nothing is lost, reordered or invented, and at most one chunk is under way. */
    predicate Conserving() { written + chunk == read && |chunk| <= 1024 }

    /** What holds however short the writes are. */
    predicate Sane() { |chunk| <= 1024 && (phase.Off? || phase.Reading? ==> chunk == []) }
  }

  const IDLE := Pipe(Off, [], [], [])

  /** The handler of `async_read_some`; a read that fails delivers nothing. */
  function OnRead(p: Pipe, data: seq<Octet>, ec: ErrorCode): Pipe
    requires p.phase.Reading?
  {
    if ec.Failed() then p.(phase := Ended)
    else p.(phase := Writing, chunk := data, read := p.read + data)
  }

  /** The handler of `async_write_some`, which took `k` octets: the loop reads on, whatever `k` was. */
  function OnWritten(p: Pipe, k: nat, ec: ErrorCode): Pipe
    requires p.phase.Writing? && k <= |p.chunk|
  {
    var p' := p.(written := p.written + p.chunk[..k]);
    if ec.Failed() then p'.(phase := Ended, chunk := p.chunk[k..])
    else p'.(phase := Reading, chunk := [])
  }

  /** One completion of either loop. */
  datatype Completion = Read(data: seq<Octet>, ec: ErrorCode) | Wrote(k: nat, ec: ErrorCode) {
    predicate Enabled(p: Pipe) {
      match this
      case Read(data, _) => p.phase.Reading? && |data| <= 1024
      case Wrote(k, _) => p.phase.Writing? && k <= |p.chunk|
    }

    /** A write that took less than its chunk, and whose count is then dropped. */
    predicate Short(p: Pipe) { Wrote? && !ec.Failed() && k < |p.chunk| }

    function Apply(p: Pipe): Pipe
      requires Enabled(p)
    {
      if Read? then OnRead(p, data, ec) else OnWritten(p, k, ec)
    }
  }

  /** Both directions, and the interleaved completions of both loops. */
  datatype Both = Both(up: Pipe, down: Pipe)
  datatype Event = Up(c: Completion) | Down(c: Completion)

  predicate CanRun(b: Both, events: seq<Event>)
    decreases |events|
  {
    events == [] ||
    (var e := events[0];
     e.c.Enabled(if e.Up? then b.up else b.down) && CanRun(Step(b, e), events[1..]))
  }

  function Step(b: Both, e: Event): Both
    requires e.c.Enabled(if e.Up? then b.up else b.down)
  {
    if e.Up? then b.(up := e.c.Apply(b.up)) else b.(down := e.c.Apply(b.down))
  }

  function Run(b: Both, events: seq<Event>): Both
    requires CanRun(b, events)
    decreases |events|
  {
    if events == [] then b else Run(Step(b, events[0]), events[1..])
  }

  /** No write of the loop in the given direction is short. */
  predicate AllFull(b: Both, events: seq<Event>, up: bool)
    requires CanRun(b, events)
    decreases |events|
  {
    events == [] ||
    (var e := events[0];
     && (e.Up? == up ==> !e.c.Short(if up then b.up else b.down))
     && AllFull(Step(b, e), events[1..], up))
  }

  /** Conservation, exactly: in every interleaving of the two loops, what one side was sent is an in-order
      prefix of what the other side sent, with only the chunk at hand missing, if and only if every
      `write_some` in that direction took its whole chunk. The other direction plays no part. */
  lemma {:induction false} RelayConserves(b: Both, events: seq<Event>, up: bool)
    requires CanRun(b, events)
    requires var p := if up then b.up else b.down; p.Conserving() && p.Sane()
    ensures var p := if up then Run(b, events).up else Run(b, events).down;
            && (p.Conserving() <==> AllFull(b, events, up))
            && (AllFull(b, events, up) ==> p.written <= p.read && |p.read| - |p.written| <= 1024)
    decreases |events|
  {
    if events != [] {
      var e := events[0];
      var b' := Step(b, e);
      var p, p' := if up then b.up else b.down, if up then b'.up else b'.down;
      if e.Up? != up {
        RelayConserves(b', events[1..], up);
      } else if e.c.Short(p) {
        LossIsFinal(b', events[1..], up);
      } else {
        CompletionConserves(p, e.c);
        RelayConserves(b', events[1..], up);
      }
    }
  }

  lemma CompletionConserves(p: Pipe, c: Completion)
    requires p.Conserving() && p.Sane() && c.Enabled(p) && !c.Short(p)
    ensures c.Apply(p).Conserving() && c.Apply(p).Sane()
  {
  }

  /** Octets that a short write dropped never come back. */
  lemma {:induction false} LossIsFinal(b: Both, events: seq<Event>, up: bool)
    requires CanRun(b, events)
    requires var p := if up then b.up else b.down; p.Sane() && |p.written| + |p.chunk| < |p.read|
    ensures !(if up then Run(b, events).up else Run(b, events).down).Conserving()
    decreases |events|
  {
    if events != [] {
      LossIsFinal(Step(b, events[0]), events[1..], up);
    }
  }

  /** A loop whose read or write fails ends; a read that fails has taken in nothing, and of a write that fails
      only what went out is written. */
  lemma FailureEnds(p: Pipe, c: Completion)
    requires c.Enabled(p) && c.ec.Failed()
    ensures var p' := c.Apply(p);
            && p'.phase.Ended? && p'.read == p.read
            && p'.written == p.written + (if c.Wrote? then p.chunk[..c.k] else [])
    ensures forall d: Completion :: !d.Enabled(c.Apply(p))
  {
  }

  /** Otherwise the loop goes on with its other half: a chunk read is to be written, and after any write it
      reads again. */
  lemma SuccessGoesOn(p: Pipe, c: Completion)
    requires c.Enabled(p) && !c.ec.Failed()
    ensures var p' := c.Apply(p);
            if c.Read? then
              p'.phase.Writing? && p'.chunk == c.data && p'.read == p.read + c.data && p'.written == p.written
            else p'.phase.Reading? && p'.read == p.read && p'.written == p.written + p.chunk[..c.k]
  {
  }

  /** The end of one direction, over every interleaving: after a completion that failed, no completion of that
      direction follows, and nothing more is read or written in it, while the other direction goes on as if
      nothing had happened. */
  lemma {:induction false} RelayEnds(b: Both, e: Event, events: seq<Event>)
    requires e.c.Enabled(if e.Up? then b.up else b.down) && e.c.ec.Failed() && CanRun(Step(b, e), events)
    ensures forall later <- events :: later.Up? != e.Up?
    ensures var was, end := if e.Up? then b.up else b.down, Run(Step(b, e), events);
            && (if e.Up? then end.up else end.down) == e.c.Apply(was)
            && e.c.Apply(was).read == was.read
    ensures CanRun(b, events)
    ensures var end := Run(b, events);
            && (if e.Up? then end.up else end.down) == (if e.Up? then b.up else b.down)
            && Run(Step(b, e), events) == Step(end, e)
    decreases |events|
  {
    FailureEnds(if e.Up? then b.up else b.down, e.c);
    if events != [] {
      assert Step(Step(b, e), events[0]) == Step(Step(b, events[0]), e);
      RelayEnds(Step(b, events[0]), e, events[1..]);
    }
  }

  /** A run that loses data: the target's socket takes one octet of two. */
  lemma ShortWriteLoses()
    ensures var b := Both(IDLE.(phase := Reading), IDLE);
            var events :=
              [Up(Read([1, 2], Success)), Up(Wrote(1, Success)), Up(Read([3], Success)), Up(Wrote(1, Success))];
            CanRun(b, events) && Run(b, events).up.written == [1, 3]
  {
  }
}
