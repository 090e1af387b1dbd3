/**
 What reaches the reader of a channel: exactly the chunks its opener wrote, in
 order, however channels and JSON-RPC messages are interleaved on the stream and
 however the stream is cut into chunks.
 */
module MuxDelivery {
  import opened Wrappers
  import opened Lines
  import opened Base64
  import opened Framing
  import opened Mux
  import C = Channel

  /** How far the lines so far have taken channel `id`: its chunks between its open line and its first end. */
  datatype Progress = Unopened | Live(chunks: seq<seq<Byte>>) | Over(chunks: seq<seq<Byte>>)

  function After(p: Progress, msg: Msg, id: nat): Progress {
    if msg.Other? || msg.id != id then p
    else match p
      case Unopened => if msg.Opens? then Live([]) else Unopened
      case Live(chunks) => if msg.Carries? then Live(chunks + [msg.payload]) else if msg.Opens? then p else Over(chunks)
      case Over(_) => p
  }

  function ProgressOf(lines: seq<Json>, id: nat): Progress {
    if lines == [] then Unopened
    else After(ProgressOf(lines[..|lines| - 1], id), Classify(lines[|lines| - 1]), id)
  }

  predicate OpensChannel(j: Json, id: nat) {
    Classify(j).Opens? && Classify(j).id == id
  }

  function OpenCount(lines: seq<Json>, id: nat): nat {
    if lines == [] then 0 else OpenCount(lines[..|lines| - 1], id) + if OpensChannel(lines[|lines| - 1], id) then 1 else 0
  }

  lemma OneMoreLine(lines: seq<Json>, j: Json, id: nat)
    ensures ProgressOf(lines + [j], id) == After(ProgressOf(lines, id), Classify(j), id)
    ensures OpenCount(lines + [j], id) == OpenCount(lines, id) + if OpensChannel(j, id) then 1 else 0
  {
    assert (lines + [j])[..|lines|] == lines;
  }

  lemma {:induction false} OpenCountGrows(a: seq<Json>, b: seq<Json>, id: nat)
    ensures OpenCount(a, id) <= OpenCount(a + b, id)
    decreases |b|
  {
    if b == [] {
      assert a + b == a;
    } else {
      var c := b[..|b| - 1];
      assert a + b == (a + c) + [b[|b| - 1]];
      OneMoreLine(a + c, b[|b| - 1], id);
      OpenCountGrows(a, c, id);
    }
  }

  lemma {:induction false} OpenedOnceCounted(lines: seq<Json>, id: nat)
    ensures ProgressOf(lines, id).Unopened? <==> OpenCount(lines, id) == 0
    decreases |lines|
  {
    if lines != [] { OpenedOnceCounted(lines[..|lines| - 1], id); }
  }

  // ---------------------------------------------------------------- the receiving side

  ghost predicate Sole(m: State, id: nat, n: nat) {
    n < |m.table| && m.table[n].id == id && forall k | 0 <= k < |m.table| && m.table[k].id == id :: k == n
  }

  /** Channel `n` has accepted exactly `chunks`, or a prefix of them once this side ended it. */
  ghost predicate Got(m: State, id: nat, n: nat, chunks: seq<seq<Byte>>) {
    Sole(m, id, n) && if m.table[n].cutHere then m.table[n].accepted <= chunks else m.table[n].accepted == chunks
  }

  ghost predicate Receives(m: State, p: Progress, id: nat) {
    match p
    case Unopened => id !in m.index && forall k | 0 <= k < |m.table| :: m.table[k].id != id
    case Live(chunks) => exists n: nat :: Got(m, id, n, chunks) && (m.table[n].ending.Open? || m.table[n].cutHere || m.ended)
    case Over(chunks) => exists n: nat :: Got(m, id, n, chunks) && !m.table[n].ending.Open?
  }

  predicate SameChannel(c: C.Chan, d: C.Chan, ended: bool) {
    && d.id == c.id && d.accepted == c.accepted
    && (c.cutHere ==> d.cutHere)
    && (d.ending.Open? ==> c.ending.Open?)
    && (c.ending.Open? && !d.ending.Open? ==> d.cutHere || ended)
  }

  /** A step that is not a message for channel `id`: nothing is accepted on it, and it ends only from this side. */
  ghost predicate Calm(m: State, z: State, id: nat) {
    && |m.table| <= |z.table| && (m.ended ==> z.ended)
    && (forall k | 0 <= k < |m.table| :: z.table[k].id == m.table[k].id)
    && (forall k | 0 <= k < |m.table| && m.table[k].id == id :: SameChannel(m.table[k], z.table[k], z.ended))
    && (forall k | |m.table| <= k < |z.table| :: z.table[k].id != id)
    && (id !in m.index ==> id !in z.index)
  }

  lemma CalmReceives(m: State, z: State, p: Progress, id: nat)
    requires Receives(m, p, id) && Calm(m, z, id)
    ensures Receives(z, p, id)
  {
    if p.Live? {
      var n: nat :| Got(m, id, n, p.chunks) && (m.table[n].ending.Open? || m.table[n].cutHere || m.ended);
      assert Got(z, id, n, p.chunks);
    } else if p.Over? {
      var n: nat :| Got(m, id, n, p.chunks) && !m.table[n].ending.Open?;
      assert Got(z, id, n, p.chunks);
    }
  }

  lemma PutIsCalm(m: State, n: nat, c: C.Chan, frames: seq<Frame>, id: nat)
    requires n < |m.table| && c.id == m.table[n].id
    requires m.table[n].id == id ==> SameChannel(m.table[n], c, m.ended)
    ensures Calm(m, Put(m, n, c, frames), id)
  {
  }

  predicate TouchesNot(step: Step, id: nat) {
    match step
    case OpenChannel(i, _) => i != id
    case Line(j) => Classify(j).Other? || Classify(j).id != id
    case _ => true
  }

  lemma OtherLinesAreCalm(m: State, msg: Msg, id: nat)
    requires Valid(m) && (msg.Other? || msg.id != id)
    ensures Calm(m, Handle(m, msg), id)
  {
    if !msg.Other? && !msg.Opens? && msg.id in m.index {
      var n := m.index[msg.id];
      assert C.Inv(m.table[n]);
      hide C.Inv;
      match msg
      case Carries(_, payload) => PutIsCalm(m, n, C.Accept(m.table[n], payload), C.AcceptFrames(m.table[n], payload), id);
      case Ends(_) => PutIsCalm(m, n, C.Finish(m.table[n], C.Finished), [], id);
      case Fails(_, message) => PutIsCalm(m, n, C.Finish(m.table[n], C.Failed(C.Remote(message))), [], id);
    }
  }

  lemma StreamEndIsCalm(m: State, id: nat)
    requires Valid(m)
    ensures Calm(m, StreamEnds(m), id)
  {
  }

  /** Lines that are not for a channel, whatever else they are, accept nothing on it and do not end it. */
  lemma OtherStepsAreCalm(m: State, step: Step, id: nat)
    requires Valid(m) && Enabled(m, step) && TouchesNot(step, id)
    ensures Calm(m, Next(m, step), id)
  {
    hide C.Inv;
    match step
    case Line(j) => OtherLinesAreCalm(m, Classify(j), id);
    case Pull(n) => PutIsCalm(m, n, C.Pull(m.table[n]), [], id);
    case Write(n, chunk) => PutIsCalm(m, n, C.Write(m.table[n], chunk), C.WriteFrames(m.table[n], chunk), id);
    case Close(n) => PutIsCalm(m, n, C.Close(m.table[n]), C.CloseFrames(m.table[n]), id);
    case StreamEnd => StreamEndIsCalm(m, id);
    case _ =>
  }

  /** A message for channel `id` takes the channel one step along. */
  lemma OwnLineReceives(m: State, p: Progress, msg: Msg, id: nat)
    requires Valid(m) && !m.ended && Receives(m, p, id)
    requires !msg.Other? && msg.id == id && (msg.Opens? ==> p.Unopened?)
    ensures Receives(Handle(m, msg), After(p, msg, id), id)
  {
    hide C.Inv;
    if p.Unopened? {
      if msg.Opens? { assert Got(Handle(m, msg), id, |m.table|, []); }
    } else {
      var n: nat :| Got(m, id, n, p.chunks) && (m.table[n].ending.Open? || (if p.Over? then true else m.table[n].cutHere));
      if p.Over? { OverStays(m, n, p.chunks, msg, id); }
      else if msg.Carries? { CarriesReceives(m, n, p.chunks, msg.payload, id); }
      else { EndsReceives(m, n, p.chunks, msg, id); }
    }
  }

  /** A channel that has ended takes nothing more. */
  lemma OverStays(m: State, n: nat, chunks: seq<seq<Byte>>, msg: Msg, id: nat)
    requires Valid(m) && Got(m, id, n, chunks) && !m.table[n].ending.Open? && !msg.Other? && !msg.Opens? && msg.id == id
    ensures Receives(Handle(m, msg), Over(chunks), id)
  {
    assert C.Inv(m.table[n]);
    hide C.Inv;
    assert id in m.index ==> m.index[id] == n;
    EndedIgnores(m, n, msg);
    hide Handle;
    hide IndexFits;
    hide ChannelsValid;
    assert Got(Handle(m, msg), id, n, chunks);
  }

  lemma EndedIgnores(m: State, n: nat, msg: Msg)
    requires Valid(m) && n < |m.table| && !m.table[n].ending.Open? && !msg.Other? && !msg.Opens?
    requires msg.id in m.index ==> m.index[msg.id] == n
    ensures Handle(m, msg).table == m.table
  {
    assert C.Inv(m.table[n]);
    hide C.Inv;
    hide EncodeFrames;
    assert m.table[n := m.table[n]] == m.table;
  }

  lemma EndsReceives(m: State, n: nat, chunks: seq<seq<Byte>>, msg: Msg, id: nat)
    requires Valid(m) && Got(m, id, n, chunks) && (m.table[n].ending.Open? || m.table[n].cutHere)
    requires (msg.Ends? || msg.Fails?) && msg.id == id
    ensures Receives(Handle(m, msg), Over(chunks), id)
  {
    assert C.Inv(m.table[n]) && (m.table[n].cutHere ==> !m.table[n].ending.Open?);
    hide C.Inv;
    hide EncodeFrames;
    if id in m.index {
      assert m.index[id] == n;
      hide IndexFits;
      hide ChannelsValid;
      var c := C.Finish(m.table[n], if msg.Ends? then C.Finished else C.Failed(C.Remote(msg.message)));
      assert Handle(m, msg) == Put(m, n, c, []);
      PutKeepsSole(m, n, c, [], id, n);
      hide Put;
      hide Handle;
      assert Got(Handle(m, msg), id, n, chunks);
    } else {
      assert Handle(m, msg) == m;
    }
  }

  lemma CarriesReceives(m: State, n: nat, chunks: seq<seq<Byte>>, payload: seq<Byte>, id: nat)
    requires Valid(m) && Got(m, id, n, chunks) && (m.table[n].ending.Open? || m.table[n].cutHere)
    ensures Receives(Handle(m, Carries(id, payload)), Live(chunks + [payload]), id)
  {
    assert C.Inv(m.table[n]);
    var z := Handle(m, Carries(id, payload));
    assert id in m.index ==> m.index[id] == n;
    assert Got(z, id, n, chunks + [payload]);
  }

  // ---------------------------------------------------------------- whole runs

  function LinesOf(steps: seq<Step>): seq<Json> {
    if steps == [] then [] else (if steps[0].Line? then [steps[0].j] else []) + LinesOf(steps[1..])
  }

  ghost predicate Runs(m: State, steps: seq<Step>, z: State)
    requires Valid(m)
    decreases |steps|
  {
    if steps == [] then z == m
    else Enabled(m, steps[0]) && (NextKeepsValid(m, steps[0]); Runs(Next(m, steps[0]), steps[1..], z))
  }

  predicate NoLocalOpen(steps: seq<Step>, id: nat) {
    forall step <- steps :: !(step.OpenChannel? && step.id == id)
  }

  lemma StepReceives(m: State, lines: seq<Json>, step: Step, id: nat)
    requires Valid(m) && Enabled(m, step) && Receives(m, ProgressOf(lines, id), id)
    requires !(step.OpenChannel? && step.id == id)
    requires OpenCount(lines + LinesOf([step]), id) <= 1
    ensures Valid(Next(m, step)) && Receives(Next(m, step), ProgressOf(lines + LinesOf([step]), id), id)
  {
    NextKeepsValid(m, step);
    hide Valid;
    hide Next;
    hide Receives;
    if step.Line? {
      assert LinesOf([step]) == [step.j];
      OneMoreLine(lines, step.j, id);
      OpenedOnceCounted(lines, id);
    } else {
      assert LinesOf([step]) == [] && lines + [] == lines;
    }
    if TouchesNot(step, id) {
      OtherStepsAreCalm(m, step, id);
      CalmReceives(m, Next(m, step), ProgressOf(lines, id), id);
    } else {
      OwnLineReceives(m, ProgressOf(lines, id), Classify(step.j), id);
      assert Next(m, step) == Handle(m, Classify(step.j)) by { NextOfLine(m, step.j); }
    }
  }

  lemma {:induction false} RunReceives(m: State, lines: seq<Json>, steps: seq<Step>, z: State, id: nat)
    requires Valid(m) && Receives(m, ProgressOf(lines, id), id) && Runs(m, steps, z)
    requires NoLocalOpen(steps, id) && OpenCount(lines + LinesOf(steps), id) <= 1
    ensures Valid(z) && Receives(z, ProgressOf(lines + LinesOf(steps), id), id)
    decreases |steps|
  {
    hide Valid;
    hide Receives;
    hide Enabled;
    hide LinesOf;
    if steps == [] {
      assert LinesOf([]) == [] by { NoLines(); }
      assert lines + [] == lines;
    } else {
      var step, more := steps[0], lines + LinesOf([steps[0]]);
      assert steps[0] in steps;
      assert more + LinesOf(steps[1..]) == lines + LinesOf(steps) by { FirstLine(steps); }
      OpenCountGrows(more, LinesOf(steps[1..]), id);
      StepReceives(m, lines, step, id);
      RunReceives(Next(m, step), more, steps[1..], z, id);
    }
  }

  lemma NoLines()
    ensures LinesOf([]) == []
  {
  }

  lemma FirstLine(steps: seq<Step>)
    requires steps != []
    ensures LinesOf(steps) == LinesOf([steps[0]]) + LinesOf(steps[1..])
  {
  }

  /**
   Whatever else happens on the mux, a channel the peer opens once accepts
   exactly the chunks the lines carry for it, or a prefix of them from the
   moment this side closed it or its budget ran over; and what its reader got
   and what is still queued for it is exactly what it accepted.
   */
  lemma ReceivesExactly(max: nat, steps: seq<Step>, z: State, id: nat)
    requires Runs(Start(max), steps, z) && NoLocalOpen(steps, id) && OpenCount(LinesOf(steps), id) <= 1
    ensures Receives(z, ProgressOf(LinesOf(steps), id), id)
    ensures forall n | 0 <= n < |z.table| :: C.Values(z.table[n].delivered) + z.table[n].queue == z.table[n].accepted
  {
    assert [] + LinesOf(steps) == LinesOf(steps);
    RunReceives(Start(max), [], steps, z, id);
  }

  // ---------------------------------------------------------------- the sending side

  ghost predicate Wrote(m: State, id: nat, n: nat, chunks: seq<seq<Byte>>) {
    Sole(m, id, n) && m.table[n].written == chunks
  }

  /** The lines sent for channel `id` say exactly what was written to it. */
  ghost predicate Sends(m: State, id: nat) {
    match ProgressOf(m.out, id)
    case Unopened => id !in m.index && forall k | 0 <= k < |m.table| :: m.table[k].id != id
    case Live(chunks) => exists n: nat :: Wrote(m, id, n, chunks)
    case Over(chunks) => exists n: nat :: Wrote(m, id, n, chunks) && !m.table[n].ending.Open?
  }

  lemma ClassifyFrame(f: Frame)
    requires f.channel >= 0
    ensures Classify(EncodeFrame(f)) ==
              match f.kind
              case Data => Carries(f.channel, f.payload.GetOr([]))
              case End => Ends(f.channel)
              case Error => Fails(f.channel, f.message.GetOr(FAILED))
  {
    FrameRoundTrip(f);
    OpenRoundTrip(0, "", f);
  }

  /** What a channel operation sends fits what it does to the channel. */
  predicate FramesFit(c: C.Chan, d: C.Chan, frames: seq<Frame>) {
    && d.id == c.id && (d.ending.Open? ==> c.ending.Open?)
    && if frames == [] then d.written == c.written
       else
         && |frames| == 1 && frames[0].channel == c.id && c.ending.Open?
         && match frames[0].kind
            case Data => frames[0].payload.Some? && d.written == c.written + [frames[0].payload.value]
            case _ => d.written == c.written && !d.ending.Open?
  }

  lemma PutSilent(m: State, n: nat, d: C.Chan, id: nat)
    requires Sends(m, id) && n < |m.table| && FramesFit(m.table[n], d, [])
    ensures Sends(Put(m, n, d, []), id)
  {
    var z := Put(m, n, d, []);
    assert EncodeFrames([]) == [] && m.out + [] == m.out;
    hide ProgressOf;
    hide EncodeFrames;
    var p := ProgressOf(m.out, id);
    if !p.Unopened? {
      var k: nat :| Wrote(m, id, k, p.chunks) && (p.Over? ==> !m.table[k].ending.Open?);
      assert Wrote(z, id, k, p.chunks);
    }
  }

  /** The frame's line takes the progress of its channel one step along, and no other's. */
  lemma FrameProgress(out: seq<Json>, f: Frame, id: nat)
    requires f.channel >= 0
    ensures ProgressOf(out + EncodeFrames([f]), id) ==
              var p := ProgressOf(out, id);
              if f.channel != id || !p.Live? then p
              else if f.kind.Data? then Live(p.chunks + [f.payload.GetOr([])]) else Over(p.chunks)
  {
    assert EncodeFrames([f]) == [EncodeFrame(f)];
    OneMoreLine(out, EncodeFrame(f), id);
    ClassifyFrame(f);
    hide Classify;
    hide ProgressOf;
  }

  /** Replacing a channel by one of the same id moves no channel. */
  lemma PutKeepsSole(m: State, n: nat, d: C.Chan, frames: seq<Frame>, id: nat, k: nat)
    requires Sole(m, id, k) && n < |m.table| && d.id == m.table[n].id
    ensures Sole(Put(m, n, d, frames), id, k) && Put(m, n, d, frames).table[k] == if k == n then d else m.table[k]
  {
    hide EncodeFrames;
  }

  lemma PutKeepsAbsent(m: State, n: nat, d: C.Chan, frames: seq<Frame>, id: nat)
    requires n < |m.table| && d.id == m.table[n].id
    requires id !in m.index && forall k | 0 <= k < |m.table| :: m.table[k].id != id
    ensures var z := Put(m, n, d, frames); id !in z.index && forall k | 0 <= k < |z.table| :: z.table[k].id != id
  {
    hide EncodeFrames;
  }

  lemma PutOne(m: State, n: nat, d: C.Chan, f: Frame, id: nat)
    requires Sends(m, id) && n < |m.table| && FramesFit(m.table[n], d, [f])
    ensures Sends(Put(m, n, d, [f]), id)
  {
    var z := Put(m, n, d, [f]);
    FrameProgress(m.out, f, id);
    assert ProgressOf(z.out, id) == ProgressOf(m.out + EncodeFrames([f]), id);
    hide ProgressOf;
    hide Put;
    var p := ProgressOf(m.out, id);
    if p.Unopened? {
      PutKeepsAbsent(m, n, d, [f], id);
    } else {
      var k: nat :| Wrote(m, id, k, p.chunks) && (p.Over? ==> !m.table[k].ending.Open?);
      PutKeepsSole(m, n, d, [f], id, k);
      var now := if k == n && f.kind.Data? then p.chunks + [f.payload.value] else p.chunks;
      assert (f.channel == id <==> k == n) by { hide Wrote; SoleIsOnly(m, id, k, n); }
      hide Sole;
      assert Wrote(z, id, k, now);
    }
  }

  lemma SoleIsOnly(m: State, id: nat, k: nat, n: nat)
    requires Sole(m, id, k) && n < |m.table|
    ensures m.table[n].id == id <==> n == k
  {
  }

  lemma PutSends(m: State, n: nat, d: C.Chan, frames: seq<Frame>, id: nat)
    requires Sends(m, id) && n < |m.table| && FramesFit(m.table[n], d, frames)
    ensures Sends(Put(m, n, d, frames), id)
  {
    if frames == [] {
      hide *;
      PutSilent(m, n, d, id);
    } else {
      assert frames == [frames[0]];
      hide *;
      PutOne(m, n, d, frames[0], id);
    }
  }

  /** Steps that send nothing and write nothing. */
  lemma SilentSends(m: State, z: State, id: nat)
    requires Sends(m, id) && z.out == m.out && |m.table| <= |z.table| && (id !in m.index ==> id !in z.index)
    requires forall k | 0 <= k < |m.table| :: FramesFit(m.table[k], z.table[k], [])
    requires forall k | |m.table| <= k < |z.table| :: z.table[k].id != id
    ensures Sends(z, id)
  {
    var p := ProgressOf(m.out, id);
    if !p.Unopened? {
      var k: nat :| Wrote(m, id, k, p.chunks) && (p.Over? ==> !m.table[k].ending.Open?);
      assert Wrote(z, id, k, p.chunks);
    }
  }

  lemma OpenSends(m: State, i: int, channelType: string, id: nat)
    requires Sends(m, id) && i >= 0 && i !in m.index && (i == id ==> ProgressOf(m.out, id).Unopened?)
    ensures Sends(Create(m, i, channelType).(out := m.out + [EncodeOpen(i, channelType)]), id)
  {
    var z := Create(m, i, channelType).(out := m.out + [EncodeOpen(i, channelType)]);
    OneMoreLine(m.out, EncodeOpen(i, channelType), id);
    OpenRoundTrip(i, channelType, Frame(0, End, None, None));
    var p := ProgressOf(m.out, id);
    if !p.Unopened? {
      var k: nat :| Wrote(m, id, k, p.chunks) && (p.Over? ==> !m.table[k].ending.Open?);
      assert Wrote(z, id, k, p.chunks);
    } else if i == id {
      assert Wrote(z, id, |m.table|, []);
    }
  }

  lemma StepSends(m: State, step: Step, id: nat)
    requires Valid(m) && Enabled(m, step) && Sends(m, id)
    requires step.Line? ==> !OpensChannel(step.j, id)
    requires OpenCount(Next(m, step).out, id) <= 1
    ensures Sends(Next(m, step), id)
  {
    hide C.Inv;
    hide Sends;
    match step {
      case OpenChannel(i, channelType) => OpenStepSends(m, i, channelType, id);
      case Line(j) => LineSends(m, Classify(j), id);
      case Pull(n) => PutSends(m, n, C.Pull(m.table[n]), [], id);
      case Write(n, chunk) => PutSends(m, n, C.Write(m.table[n], chunk), C.WriteFrames(m.table[n], chunk), id);
      case Close(n) => PutSends(m, n, C.Close(m.table[n]), C.CloseFrames(m.table[n]), id);
      case Reap(n) => SilentSends(m, Next(m, step), id);
      case StreamEnd => SilentSends(m, Next(m, step), id);
    }
  }

  lemma OpenStepSends(m: State, i: int, channelType: string, id: nat)
    requires Valid(m) && Sends(m, id) && OpenCount(Next(m, OpenChannel(i, channelType)).out, id) <= 1
    ensures Sends(Next(m, OpenChannel(i, channelType)), id)
  {
    hide Sends;
    if i >= 0 && i !in m.index {
      OneMoreLine(m.out, EncodeOpen(i, channelType), id);
      OpenRoundTrip(i, channelType, Frame(0, End, None, None));
      OpenedOnceCounted(m.out, id);
      OpenSends(m, i, channelType, id);
    }
  }

  lemma LineSends(m: State, msg: Msg, id: nat)
    requires Valid(m) && Sends(m, id) && !(msg.Opens? && msg.id == id)
    ensures Sends(Handle(m, msg), id)
  {
    if msg.Opens? {
      SilentSends(m, Handle(m, msg), id);
    } else if !msg.Other? && msg.id in m.index {
      var n := m.index[msg.id];
      assert C.Inv(m.table[n]);
      hide C.Inv;
      match msg
      case Carries(_, payload) => PutSends(m, n, C.Accept(m.table[n], payload), C.AcceptFrames(m.table[n], payload), id);
      case Ends(_) => PutSends(m, n, C.Finish(m.table[n], C.Finished), [], id);
      case Fails(_, message) => PutSends(m, n, C.Finish(m.table[n], C.Failed(C.Remote(message))), [], id);
    }
  }

  lemma NextOnlySends(m: State, step: Step)
    requires Valid(m) && Enabled(m, step)
    ensures m.out <= Next(m, step).out
  {
  }

  lemma {:induction false} RunSends(m: State, steps: seq<Step>, z: State, id: nat)
    requires Valid(m) && Sends(m, id) && Runs(m, steps, z)
    requires forall j <- LinesOf(steps) :: !OpensChannel(j, id)
    requires OpenCount(z.out, id) <= 1
    ensures Sends(z, id) && m.out <= z.out
    decreases |steps|
  {
    hide Sends;
    hide Valid;
    hide OpenCount;
    hide OpensChannel;
    if steps != [] {
      var n := Next(m, steps[0]);
      NextKeepsValid(m, steps[0]);
      FirstLine(steps);
      if steps[0].Line? { assert LinesOf([steps[0]]) == [steps[0].j] && LinesOf(steps)[0] == steps[0].j; }
      assert forall j <- LinesOf(steps[1..]) :: j in LinesOf(steps);
      RunExtends(n, steps[1..], z);
      OpenCountGrows(n.out, z.out[|n.out|..], id);
      assert n.out + z.out[|n.out|..] == z.out;
      NextOnlySends(m, steps[0]);
      StepSends(m, steps[0], id);
      RunSends(n, steps[1..], z, id);
    }
  }

  lemma {:induction false} RunExtends(m: State, steps: seq<Step>, z: State)
    requires Valid(m) && Runs(m, steps, z)
    ensures m.out <= z.out
    decreases |steps|
  {
    if steps != [] {
      NextKeepsValid(m, steps[0]);
      NextOnlySends(m, steps[0]);
      hide Valid;
      RunExtends(Next(m, steps[0]), steps[1..], z);
    }
  }

  // ---------------------------------------------------------------- end to end

  /** The frames of a shared stream, without the JSON-RPC messages in between. */
  function Marked(wire: seq<Json>): seq<Json> {
    if wire == [] then [] else Marked(wire[..|wire| - 1]) + if Classify(wire[|wire| - 1]).Other? then [] else [wire[|wire| - 1]]
  }

  lemma {:induction false} OtherLinesDoNotCount(wire: seq<Json>, id: nat)
    ensures ProgressOf(wire, id) == ProgressOf(Marked(wire), id) && OpenCount(wire, id) == OpenCount(Marked(wire), id)
    decreases |wire|
  {
    if wire != [] {
      var init, last := wire[..|wire| - 1], wire[|wire| - 1];
      OtherLinesDoNotCount(init, id);
      if !Classify(last).Other? {
        OneMoreLine(Marked(init), last, id);
      } else {
        assert Marked(init) + [] == Marked(init);
      }
    }
  }

  /** The channel a sender opened once was written exactly what its lines say. */
  lemma SenderWrote(max: nat, steps: seq<Step>, sender: State, id: nat) returns (k: nat)
    requires Runs(Start(max), steps, sender) && (forall j <- LinesOf(steps) :: !OpensChannel(j, id)) && OpenCount(sender.out, id) == 1
    ensures !ProgressOf(sender.out, id).Unopened?
    ensures Sole(sender, id, k) && sender.table[k].written == ProgressOf(sender.out, id).chunks
  {
    assert Sends(Start(max), id);
    RunSends(Start(max), steps, sender, id);
    OpenedOnceCounted(sender.out, id);
    var p := ProgressOf(sender.out, id);
    hide OpenCount;
    hide ProgressOf;
    k :| Wrote(sender, id, k, p.chunks);
  }

  /** What the channel's reader got, with what is queued for it, is `chunks`, or a prefix once this side ended the channel. */
  ghost predicate Arrived(m: State, id: nat, n: nat, chunks: seq<seq<Byte>>) {
    && Sole(m, id, n)
    && var arrived := C.Values(m.table[n].delivered) + m.table[n].queue;
       if m.table[n].cutHere then arrived <= chunks else arrived == chunks
  }

  lemma ReceiverGot(m: State, p: Progress, id: nat) returns (n: nat)
    requires Receives(m, p, id) && !p.Unopened?
    requires forall k | 0 <= k < |m.table| :: C.Values(m.table[k].delivered) + m.table[k].queue == m.table[k].accepted
    ensures Arrived(m, id, n, p.chunks)
  {
    n :| Got(m, id, n, p.chunks);
  }

  /**
   End to end: one side's frames, mixed with JSON-RPC messages, rendered as
   lines, cut into arbitrary chunks and decoded, drive the other side. For a
   channel opened once, by the sender only, what the reader got together with
   what is queued for it is exactly what was written, or a prefix of it once
   its own side ended the channel.
   */
  lemma ChunksArriveAsWritten(codec: Codec, sendSteps: seq<Step>, sender: State, wire: seq<Json>, chunks: seq<seq<Byte>>,
                              receiveSteps: seq<Step>, receiver: State, maxes: (nat, nat), id: nat)
    requires Sound(codec, wire)
    requires Runs(Start(maxes.0), sendSteps, sender) && forall j <- LinesOf(sendSteps) :: !OpensChannel(j, id)
    requires OpenCount(sender.out, id) == 1
    requires Marked(wire) == sender.out && Concat(chunks) == Terminated(Rendered(codec, wire), NEWLINE)
    requires Runs(Start(maxes.1), receiveSteps, receiver) && NoLocalOpen(receiveSteps, id)
    requires LinesOf(receiveSteps) == PushAll(codec, [], chunks).0
    ensures exists k: nat, n: nat ::
              Sole(sender, id, k) && Arrived(receiver, id, n, sender.table[k].written)
  {
    hide *;
    LinesRoundTrip(codec, wire, chunks);
    OtherLinesDoNotCount(wire, id);
    var k := SenderWrote(maxes.0, sendSteps, sender, id);
    ReceivesExactly(maxes.1, receiveSteps, receiver, id);
    var n := ReceiverGot(receiver, ProgressOf(wire, id), id);
  }
}
