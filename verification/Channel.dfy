/**
 One logical channel (packages/remote-core/src/mux.ts, MuxChannelImpl): a
 bounded queue of payloads, at most one waiting reader, and an end that
 surfaces only behind everything queued.
 */
module Channel {
  import opened Wrappers
  import opened Base64
  import opened Framing

  datatype Failure = Remote(message: string) | Overflow | StreamLost

  datatype Ending = Open | Finished | Failed(error: Failure)

  /** What a pull of the reader resolves to. */
  datatype Outcome = Value(bytes: seq<Byte>) | EndOfChannel | Raised(error: Failure)

  /**
   The channel's fields, and what is only recorded to speak about it: what its
   reader got, what was accepted from and written to the peer, and whether this
   side ended it.
   */
  datatype Chan = Chan(
    id: nat, channelType: string, maxQueuedBytes: nat,
    queue: seq<seq<Byte>>, queuedBytes: nat, waiter: bool, ending: Ending,
    delivered: seq<Outcome>, accepted: seq<seq<Byte>>, written: seq<seq<Byte>>, cutHere: bool)

  function Fresh(id: nat, channelType: string, max: nat): Chan {
    Chan(id, channelType, max, [], 0, false, Open, [], [], [], false)
  }

  const EXCEEDED := "exceeded queued bytes"

  function EndOutcome(e: Ending): Outcome
    requires !e.Open?
  {
    if e.Finished? then EndOfChannel else Raised(e.error)
  }

  /** Deliver the head of the queue, which is not empty. */
  function Shift(c: Chan): Chan
    requires c.queue != [] && c.queuedBytes >= |c.queue[0]|
  {
    c.(queue := c.queue[1..], queuedBytes := c.queuedBytes - |c.queue[0]|, delivered := c.delivered + [Value(c.queue[0])])
  }

  predicate Overflows(c: Chan, payload: seq<Byte>) {
    c.ending.Open? && !c.waiter && c.queuedBytes + |payload| > c.maxQueuedBytes
  }

  function Finish(c: Chan, e: Ending): Chan
    requires !e.Open? && Inv(c)
  {
    if !c.ending.Open? then c
    else if c.waiter then c.(ending := e, waiter := false, delivered := c.delivered + [EndOutcome(e)])
    else c.(ending := e)
  }

  function Accept(c: Chan, payload: seq<Byte>): Chan
    requires Inv(c)
  {
    if !c.ending.Open? then c
    else if c.waiter then c.(waiter := false, delivered := c.delivered + [Value(payload)], accepted := c.accepted + [payload])
    else if Overflows(c, payload) then Finish(c, Failed(Overflow)).(cutHere := true)
    else c.(queue := c.queue + [payload], queuedBytes := c.queuedBytes + |payload|, accepted := c.accepted + [payload])
  }

  function Pull(c: Chan): Chan
    requires Inv(c) && !c.waiter
  {
    if c.queue != [] then Shift(c)
    else if !c.ending.Open? then c.(delivered := c.delivered + [EndOutcome(c.ending)])
    else c.(waiter := true)
  }

  function Close(c: Chan): Chan
    requires Inv(c)
  {
    if !c.ending.Open? then c else Finish(c, Finished).(cutHere := true)
  }

  function Write(c: Chan, chunk: seq<Byte>): Chan {
    if !c.ending.Open? then c else c.(written := c.written + [chunk])
  }

  /** The frames each operation hands to the wire. */
  function AcceptFrames(c: Chan, payload: seq<Byte>): seq<Frame> {
    if Overflows(c, payload) then [Frame(c.id, Error, None, Some(EXCEEDED))] else []
  }

  function CloseFrames(c: Chan): seq<Frame> {
    if c.ending.Open? then [Frame(c.id, End, None, None)] else []
  }

  function WriteFrames(c: Chan, chunk: seq<Byte>): seq<Frame> {
    if c.ending.Open? then [Frame(c.id, Data, Some(chunk), None)] else []
  }

  // ---------------------------------------------------------------- the invariant

  function Total(queue: seq<seq<Byte>>): nat {
    if queue == [] then 0 else |queue[0]| + Total(queue[1..])
  }

  function Values(outcomes: seq<Outcome>): seq<seq<Byte>> {
    if outcomes == [] then [] else Values(outcomes[..|outcomes| - 1]) + (match outcomes[|outcomes| - 1] case Value(b) => [b] case _ => [])
  }

  /** The reader is told how the channel ended: a clean end is the end of the stream, a failure is raised as it is. */
  predicate TellsEnd(o: Outcome, e: Ending) {
    match e
    case Open => false
    case Finished => o.EndOfChannel?
    case Failed(error) => o.Raised? && o.error == error
  }

  lemma EndIsTold(e: Ending, o: Outcome)
    requires !e.Open?
    ensures TellsEnd(o, e) <==> o == EndOutcome(e)
  {
  }

  /** Values first, then nothing but the channel's end. */
  ghost predicate EndsLast(c: Chan) {
    && (forall i | 0 <= i < |c.delivered| && !c.delivered[i].Value? :: !c.ending.Open? && c.queue == [] && TellsEnd(c.delivered[i], c.ending))
    && (forall i, j | 0 <= i < j < |c.delivered| && c.delivered[j].Value? :: c.delivered[i].Value?)
  }

  /** What the reader got and what is queued is what was accepted, and the queue's bytes are counted within budget. */
  ghost predicate Accounted(c: Chan) {
    && Values(c.delivered) + c.queue == c.accepted
    && c.queuedBytes == Total(c.queue) <= c.maxQueuedBytes
  }

  ghost predicate Inv(c: Chan) {
    && Accounted(c) && EndsLast(c)
    && (c.waiter ==> c.ending.Open? && c.queue == [])
    && (c.cutHere ==> !c.ending.Open?)
  }

  lemma ValuesMore(outcomes: seq<Outcome>, o: Outcome)
    ensures Values(outcomes + [o]) == Values(outcomes) + (if o.Value? then [o.bytes] else [])
  {
    assert (outcomes + [o])[..|outcomes|] == outcomes;
  }

  lemma {:induction false} TotalMore(queue: seq<seq<Byte>>, p: seq<Byte>)
    ensures Total(queue + [p]) == Total(queue) + |p|
    decreases |queue|
  {
    if queue == [] {
      assert queue + [p] == [p];
    } else {
      assert (queue + [p])[1..] == queue[1..] + [p];
      TotalMore(queue[1..], p);
    }
  }

  lemma JoinMore(a: seq<seq<Byte>>, b: seq<seq<Byte>>, p: seq<Byte>)
    ensures a + (b + [p]) == (a + b) + [p]
  {
  }

  lemma JoinFirst(a: seq<seq<Byte>>, b: seq<seq<Byte>>)
    requires b != []
    ensures (a + [b[0]]) + b[1..] == a + b
  {
    assert [b[0]] + b[1..] == b;
  }

  lemma TotalFirst(queue: seq<seq<Byte>>)
    requires queue != []
    ensures Total(queue) == |queue[0]| + Total(queue[1..])
  {
  }

  lemma AcceptAccounted(c: Chan, payload: seq<Byte>)
    requires Inv(c) && c.ending.Open? && !Overflows(c, payload)
    ensures Accounted(Accept(c, payload))
  {
    ValuesMore(c.delivered, Value(payload));
    TotalMore(c.queue, payload);
    hide EndsLast;
    hide Values;
    hide Total;
    if c.waiter {
      JoinMore(Values(c.delivered), [], payload);
      assert Values(c.delivered) + [] == Values(c.delivered);
    } else {
      JoinMore(Values(c.delivered), c.queue, payload);
    }
  }

  lemma AcceptEndsLast(c: Chan, payload: seq<Byte>)
    requires Inv(c) && c.ending.Open? && !Overflows(c, payload)
    ensures EndsLast(Accept(c, payload))
  {
    hide Accounted;
  }

  lemma AcceptKeepsInv(c: Chan, payload: seq<Byte>)
    requires Inv(c)
    ensures Inv(Accept(c, payload))
  {
    if Overflows(c, payload) {
      FinishKeepsInv(c, Failed(Overflow));
    } else if c.ending.Open? {
      AcceptAccounted(c, payload);
      AcceptEndsLast(c, payload);
    }
    hide Accounted;
    hide EndsLast;
  }

  /** Telling the reader the end hands over no value. */
  lemma EndAccounted(c: Chan, e: Ending)
    requires Accounted(c) && !e.Open?
    ensures Accounted(c.(ending := e, waiter := false, delivered := c.delivered + [EndOutcome(e)]))
  {
    ValuesMore(c.delivered, EndOutcome(e));
    hide Values;
    hide Total;
    assert Values(c.delivered) + [] == Values(c.delivered);
  }

  lemma FinishKeepsInv(c: Chan, e: Ending)
    requires Inv(c) && !e.Open?
    ensures Inv(Finish(c, e))
  {
    EndAccounted(c, e);
    FinishAccounted(c, e);
    hide Accounted;
  }

  lemma FinishAccounted(c: Chan, e: Ending)
    requires Inv(c) && !e.Open?
    ensures Accounted(Finish(c, e))
  {
    EndAccounted(c, e);
    hide Values;
    hide Total;
    hide EndsLast;
  }

  lemma ShiftAccounted(c: Chan)
    requires Accounted(c) && c.queue != []
    ensures c.queuedBytes >= |c.queue[0]| && Accounted(Shift(c))
  {
    ValuesMore(c.delivered, Value(c.queue[0]));
    TotalFirst(c.queue);
    hide Values;
    hide Total;
    JoinFirst(Values(c.delivered), c.queue);
  }

  lemma PullEndsLast(c: Chan)
    requires Inv(c) && !c.waiter
    ensures EndsLast(Pull(c))
  {
    if c.queue != [] { ShiftAccounted(c); }
    hide Accounted;
  }

  lemma PullKeepsInv(c: Chan)
    requires Inv(c) && !c.waiter
    ensures Inv(Pull(c))
  {
    PullEndsLast(c);
    if c.queue != [] { ShiftAccounted(c); }
    else if !c.ending.Open? { EndAccounted(c, c.ending); }
    WaitAccounted(c);
    hide Accounted;
    hide EndsLast;
  }

  lemma WaitAccounted(c: Chan)
    requires Accounted(c)
    ensures Accounted(c.(waiter := true))
  {
    hide Values;
    hide Total;
  }

  lemma CloseKeepsInv(c: Chan)
    requires Inv(c)
    ensures Inv(Close(c))
  {
    FinishKeepsInv(c, Finished);
  }

  // ---------------------------------------------------------------- runs of one channel

  datatype Step = Arrive(payload: seq<Byte>) | Stop(ending: Ending) | Read | CloseHere | Send(chunk: seq<Byte>)

  /** One reader: it pulls again only after its last pull was answered. */
  predicate Enabled(c: Chan, step: Step) {
    (step.Read? ==> !c.waiter) && (step.Stop? ==> !step.ending.Open?)
  }

  function Next(c: Chan, step: Step): Chan
    requires Inv(c) && Enabled(c, step)
  {
    match step
    case Arrive(payload) => Accept(c, payload)
    case Stop(e) => Finish(c, e)
    case Read => Pull(c)
    case CloseHere => Close(c)
    case Send(chunk) => Write(c, chunk)
  }

  lemma NextKeepsInv(c: Chan, step: Step)
    requires Inv(c) && Enabled(c, step)
    ensures Inv(Next(c, step))
  {
    match step
    case Arrive(payload) => AcceptKeepsInv(c, payload);
    case Stop(e) => FinishKeepsInv(c, e);
    case Read => PullKeepsInv(c);
    case CloseHere => CloseKeepsInv(c);
    case Send(_) =>
  }

  ghost predicate Runs(c: Chan, steps: seq<Step>, z: Chan)
    requires Inv(c)
    decreases |steps|
  {
    if steps == [] then z == c
    else Enabled(c, steps[0]) && (NextKeepsInv(c, steps[0]); Runs(Next(c, steps[0]), steps[1..], z))
  }

  /**
   Along every run: what the reader got and what is queued is what was
   accepted, the queue's bytes are counted exactly and within budget, a reader
   waits only on an open channel with nothing queued, and the end comes behind
   everything queued.
   */
  lemma {:induction false} RunsKeepInv(c: Chan, steps: seq<Step>, z: Chan)
    requires Inv(c) && Runs(c, steps, z)
    ensures Inv(z)
    decreases |steps|
  {
    if steps != [] {
      NextKeepsInv(c, steps[0]);
      RunsKeepInv(Next(c, steps[0]), steps[1..], z);
    }
  }

  /** Once a channel has ended, reading on hands over everything accepted, then the end and nothing else. */
  lemma {:induction false} EndedChannelDrains(c: Chan) returns (steps: seq<Step>, z: Chan)
    requires Inv(c) && !c.ending.Open? && !c.waiter
    ensures |steps| == |c.queue| + 1 && (forall step <- steps :: step.Read?) && Runs(c, steps, z)
    ensures Values(z.delivered) == c.accepted && z.delivered != [] && TellsEnd(z.delivered[|z.delivered| - 1], c.ending)
    decreases |c.queue|
  {
    PullKeepsInv(c);
    ValuesMore(c.delivered, EndOutcome(c.ending));
    hide Values;
    hide Total;
    hide EndsLast;
    var n := Pull(c);
    if c.queue == [] {
      steps, z := [Read], n;
      assert Values(c.delivered) + [] == Values(c.delivered);
      assert Runs(n, steps[1..], z);
    } else {
      var later;
      later, z := EndedChannelDrains(n);
      steps := [Read] + later;
      assert steps[1..] == later;
    }
  }

  /**
   What becomes of a payload: dropped behind an end, handed to a waiting reader,
   queued if it fits the budget together with everything unread, and otherwise
   the end of the channel, for which an error frame is sent.
   */
  lemma PayloadGoes(c: Chan, payload: seq<Byte>)
    requires Inv(c)
    ensures var z, frames := Accept(c, payload), AcceptFrames(c, payload);
            var fits := c.waiter || Total(c.queue) + |payload| <= c.maxQueuedBytes;
            && (!c.ending.Open? ==> z == c && frames == [])
            && (c.ending.Open? && fits ==> z.ending.Open? && z.accepted == c.accepted + [payload] && !z.waiter && frames == [])
            && (c.ending.Open? && c.waiter ==> z.delivered == c.delivered + [Value(payload)] && z.queue == [])
            && (c.ending.Open? && fits && !c.waiter ==> z.delivered == c.delivered && z.queue == c.queue + [payload])
            && (c.ending.Open? && !fits ==>
                  && z.ending == Failed(Overflow) && z.cutHere && z.accepted == c.accepted && z.delivered == c.delivered && z.queue == c.queue
                  && |frames| == 1 && frames[0].channel == c.id && frames[0].kind == Error && frames[0].message == Some(EXCEEDED))
  {
    hide Values;
    hide EndsLast;
  }

  /** An end surfaces at once to a waiting reader, and otherwise leaves it to the reads; only the first end counts. */
  lemma EndGoes(c: Chan, e: Ending)
    requires Inv(c) && !e.Open?
    ensures var z := Finish(c, e);
            && (!c.ending.Open? ==> z == c)
            && (c.ending.Open? ==> z.ending == e && !z.waiter && z.queue == c.queue && z.accepted == c.accepted)
            && (c.ending.Open? && !c.waiter ==> z.delivered == c.delivered)
            && (c.ending.Open? && c.waiter ==>
                  |z.delivered| == |c.delivered| + 1 && c.delivered <= z.delivered && TellsEnd(z.delivered[|c.delivered|], e))
  {
    hide Accounted;
  }

  /** A read takes the first chunk of the queue; with none it is told the end, or waits if there is none yet. */
  lemma ReadGets(c: Chan)
    requires Inv(c) && !c.waiter
    ensures var z := Pull(c);
            && z.ending == c.ending && z.accepted == c.accepted
            && (c.queue != [] ==> z.delivered == c.delivered + [Value(c.queue[0])] && z.queue == c.queue[1..] && !z.waiter)
            && (c.queue == [] && c.ending.Open? ==> z == c.(waiter := true))
            && (c.queue == [] && !c.ending.Open? ==>
                  |z.delivered| == |c.delivered| + 1 && c.delivered <= z.delivered && TellsEnd(z.delivered[|c.delivered|], c.ending) && !z.waiter)
  {
    hide Accounted;
  }

  /** An end stays what it was first, and a channel that has ended accepts and writes nothing more, in every run. */
  lemma {:induction false} EndStays(c: Chan, steps: seq<Step>, z: Chan)
    requires Inv(c) && Runs(c, steps, z) && !c.ending.Open?
    ensures z.ending == c.ending && z.accepted == c.accepted && z.written == c.written && z.cutHere == c.cutHere
    ensures c.delivered <= z.delivered
    decreases |steps|
  {
    if steps != [] {
      NextKeepsInv(c, steps[0]);
      EndStays(Next(c, steps[0]), steps[1..], z);
    }
  }

  // ---------------------------------------------------------------- the object

  class MuxChannel {
    const id: nat
    const channelType: string
    const maxQueuedBytes: nat
    var queue: seq<seq<Byte>>
    var queuedBytes: nat
    var waiter: bool
    var ending: Ending
    /** Frames handed to the send hook. */
    var sent: seq<Frame>
    /** What the reader's pulls resolved to. */
    var delivered: seq<Outcome>
    ghost var accepted: seq<seq<Byte>>
    ghost var written: seq<seq<Byte>>
    ghost var cutHere: bool

    ghost function AsChan(): Chan
      reads this
    {
      Chan(id, channelType, maxQueuedBytes, queue, queuedBytes, waiter, ending, delivered, accepted, written, cutHere)
    }

    ghost predicate Valid()
      reads this
    {
      Inv(AsChan())
    }

    constructor (id: nat, channelType: string, maxQueuedBytes: nat)
      ensures Valid() && AsChan() == Fresh(id, channelType, maxQueuedBytes) && sent == []
    {
      this.id, this.channelType, this.maxQueuedBytes := id, channelType, maxQueuedBytes;
      queue, queuedBytes, waiter, ending := [], 0, false, Open;
      sent, delivered, accepted, written, cutHere := [], [], [], [], false;
    }

    /** Send one chunk; false when the channel is closed. */
    method WriteChunk(chunk: seq<Byte>) returns (ok: bool)
      requires Valid()
      modifies this
      ensures Valid() && AsChan() == Write(old(AsChan()), chunk)
      ensures ok == old(ending).Open? && sent == old(sent) + WriteFrames(old(AsChan()), chunk)
    {
      if !ending.Open? { return false; }
      sent := sent + [Frame(id, Data, Some(chunk), None)];
      written := written + [chunk];
      return true;
    }

    /** Send an end frame and close this side. */
    method CloseChannel()
      requires Valid()
      modifies this
      ensures Valid() && AsChan() == Close(old(AsChan())) && sent == old(sent) + CloseFrames(old(AsChan()))
    {
      if !ending.Open? { return; }
      sent := sent + [Frame(id, End, None, None)];
      Terminate(Finished);
      cutHere := true;
    }

    /** A payload from the peer: straight to a waiting reader, else queued within the budget. */
    method TakeData(payload: seq<Byte>)
      requires Valid()
      modifies this
      ensures Valid() && AsChan() == Accept(old(AsChan()), payload)
      ensures sent == old(sent) + AcceptFrames(old(AsChan()), payload)
    {
      hide Inv;
      AcceptKeepsInv(AsChan(), payload);
      if !ending.Open? { return; }
      if waiter {
        waiter := false;
        delivered := delivered + [Value(payload)];
        accepted := accepted + [payload];
      } else {
        if queuedBytes + |payload| > maxQueuedBytes {
          sent := sent + [Frame(id, Error, None, Some(EXCEEDED))];
          Terminate(Failed(Overflow));
          cutHere := true;
          return;
        }
        queue := queue + [payload];
        queuedBytes := queuedBytes + |payload|;
        accepted := accepted + [payload];
      }
    }

    /**
     End the channel. A waiting reader has nothing queued, so it is told the
     end: the source's branch handing it a queued chunk is never taken.
     */
    method Terminate(e: Ending)
      requires Valid() && !e.Open?
      modifies this
      ensures Valid() && AsChan() == Finish(old(AsChan()), e) && sent == old(sent)
    {
      hide Inv;
      FinishKeepsInv(AsChan(), e);
      if !ending.Open? { return; }
      ending := e;
      if !waiter { return; }
      waiter := false;
      delivered := delivered + [EndOutcome(e)];
    }

    method Dequeue()
      requires queue != [] && queuedBytes >= |queue[0]|
      modifies this`queue, this`queuedBytes, this`delivered
      ensures AsChan() == Shift(old(AsChan()))
    {
      var value := queue[0];
      queue := queue[1..];
      queuedBytes := queuedBytes - |value|;
      delivered := delivered + [Value(value)];
    }

    /** One read: a queued chunk, the end, or wait. */
    method Next() returns (answered: bool)
      requires Valid() && !waiter
      modifies this
      ensures Valid() && AsChan() == Pull(old(AsChan())) && sent == old(sent)
      ensures answered <==> !waiter
    {
      PullKeepsInv(AsChan());
      hide Values;
      hide EndsLast;
      if queue != [] {
        Dequeue();
        return true;
      }
      if !ending.Open? {
        delivered := delivered + [EndOutcome(ending)];
        return true;
      }
      waiter := true;
      return false;
    }
  }
}
