/**
 Channel multiplexing (packages/remote-core/src/mux.ts, ChannelMux): logical
 channels sharing one line stream with JSON-RPC messages. Channels are kept in
 a table by creation; the index holds those not yet reaped, by channel id.
 */
module Mux {
  import opened Wrappers
  import opened Lines
  import opened Base64
  import opened Framing
  import C = Channel

  datatype State = State(max: nat, table: seq<C.Chan>, index: map<nat, nat>, out: seq<Json>, ended: bool)

  function Start(max: nat): State {
    State(max, [], map[], [], false)
  }

  /** What a line says, as the mux reads it. */
  datatype Msg = Opens(id: nat, channelType: string) | Carries(id: nat, payload: seq<Byte>) | Ends(id: nat) | Fails(id: nat, message: string) | Other

  const FAILED := "channel failed"

  function Classify(j: Json): Msg {
    var open := DecodeOpen(j);
    if open.Some? then Opens(open.value.channel, open.value.channelType)
    else
      var frame := DecodeFrame(j);
      if frame.None? || frame.value.channel < 0 then Other
      else match frame.value.kind
        case Data => Carries(frame.value.channel, frame.value.payload.GetOr([]))
        case End => Ends(frame.value.channel)
        case Error => Fails(frame.value.channel, frame.value.message.GetOr(FAILED))
  }

  /** What a line is for the mux, by its fields: data without a payload is empty, and an error without a message has the default one. */
  lemma LineSays(j: Json, id: nat)
    ensures (exists t :: Classify(j) == Opens(id, t)) <==>
              Says(j, "$dsh-remote-frame", JNumber(1.0)) && Says(j, "channel", JNumber(id as real)) && Says(j, "type", JString("open"))
    ensures FrameOnWire(j, id, Data) <==> Classify(j).Carries? && Classify(j).id == id
    ensures FrameOnWire(j, id, End) <==> Classify(j) == Ends(id)
    ensures FrameOnWire(j, id, Error) <==> Classify(j).Fails? && Classify(j).id == id
    ensures Classify(j).Carries? ==>
              Classify(j).payload == if "payload" in j.fields && j.fields["payload"].JString? then Decode(j.fields["payload"].s) else []
    ensures Classify(j).Fails? ==>
              Classify(j).message == if "message" in j.fields && j.fields["message"].JString? then j.fields["message"].s else FAILED
  {
    OpenDecides(j, id);
    FrameDecides(j, id, Data);
    FrameDecides(j, id, End);
    FrameDecides(j, id, Error);
    hide DecodeFrame;
    hide Decode;
    if Classify(j).Opens? { assert Classify(j) == Opens(Classify(j).id, Classify(j).channelType); }
    assert FrameOnWire(j, id, Data) || FrameOnWire(j, id, End) || FrameOnWire(j, id, Error) ==> DecodeOpen(j).None?;
  }

  ghost predicate ChannelsValid(m: State) {
    forall n | 0 <= n < |m.table| :: C.Inv(m.table[n])
  }

  /** The index names live table entries under their own id, and holds every channel still open. */
  ghost predicate IndexFits(m: State) {
    && (forall id <- m.index :: m.index[id] < |m.table| && m.table[m.index[id]].id == id)
    && (forall n | 0 <= n < |m.table| && m.table[n].ending.Open? :: m.table[n].id in m.index && m.index[m.table[n].id] == n)
  }

  ghost predicate Valid(m: State) {
    ChannelsValid(m) && IndexFits(m)
  }

  function EncodeFrames(frames: seq<Frame>): seq<Json> {
    seq(|frames|, i requires 0 <= i < |frames| => EncodeFrame(frames[i]))
  }

  /** Replace channel `n`, sending `frames`. */
  function Put(m: State, n: nat, c: C.Chan, frames: seq<Frame>): State
    requires n < |m.table|
  {
    m.(table := m.table[n := c], out := m.out + EncodeFrames(frames))
  }

  function Create(m: State, id: nat, channelType: string): State {
    m.(table := m.table + [C.Fresh(id, channelType, m.max)], index := m.index[id := |m.table|])
  }

  function Handle(m: State, msg: Msg): State
    requires Valid(m)
  {
    match msg
    case Opens(id, channelType) => if id in m.index then m else Create(m, id, channelType)
    case Carries(id, payload) =>
      if id !in m.index then m
      else Put(m, m.index[id], C.Accept(m.table[m.index[id]], payload), C.AcceptFrames(m.table[m.index[id]], payload))
    case Ends(id) => if id !in m.index then m else Put(m, m.index[id], C.Finish(m.table[m.index[id]], C.Finished), [])
    case Fails(id, message) => if id !in m.index then m else Put(m, m.index[id], C.Finish(m.table[m.index[id]], C.Failed(C.Remote(message))), [])
    case Other => m
  }

  predicate Indexed(m: State, n: nat)
    requires n < |m.table|
  {
    m.table[n].id in m.index && m.index[m.table[n].id] == n
  }

  function StreamEnds(m: State): State
    requires Valid(m)
  {
    m.(table := seq(|m.table|, n requires 0 <= n < |m.table| =>
                      if Indexed(m, n) then C.Finish(m.table[n], C.Failed(C.StreamLost)) else m.table[n]),
       index := map[], ended := true)
  }

  datatype Step =
    | OpenChannel(id: int, channelType: string)
    | Line(j: Json)
    | Pull(n: nat)
    | Write(n: nat, chunk: seq<Byte>)
    | Close(n: nat)
    | Reap(n: nat)
    | StreamEnd

  predicate Enabled(m: State, step: Step) {
    match step
    case OpenChannel(_, _) => true
    case Line(_) => !m.ended
    case Pull(n) => n < |m.table| && !m.table[n].waiter
    case Write(n, _) => n < |m.table|
    case Close(n) => n < |m.table|
    case Reap(n) => n < |m.table| && !m.table[n].ending.Open?
    case StreamEnd => !m.ended
  }

  function Next(m: State, step: Step): State
    requires Valid(m) && Enabled(m, step)
  {
    match step
    case OpenChannel(id, channelType) =>
      if id < 0 || id in m.index then m
      else Create(m, id, channelType).(out := m.out + [EncodeOpen(id, channelType)])
    case Line(j) => Handle(m, Classify(j))
    case Pull(n) => Put(m, n, C.Pull(m.table[n]), [])
    case Write(n, chunk) => Put(m, n, C.Write(m.table[n], chunk), C.WriteFrames(m.table[n], chunk))
    case Close(n) => Put(m, n, C.Close(m.table[n]), C.CloseFrames(m.table[n]))
    case Reap(n) => if Indexed(m, n) then m.(index := m.index - {m.table[n].id}) else m
    case StreamEnd => StreamEnds(m)
  }

  lemma PutKeepsValid(m: State, n: nat, c: C.Chan, frames: seq<Frame>)
    requires Valid(m) && n < |m.table| && C.Inv(c) && c.id == m.table[n].id
    requires c.ending.Open? ==> m.table[n].ending.Open?
    ensures Valid(Put(m, n, c, frames))
  {
    hide C.Inv;
  }

  lemma FreshIsValid(id: nat, channelType: string, max: nat)
    ensures C.Inv(C.Fresh(id, channelType, max))
  {
  }

  lemma CreateKeepsValid(m: State, id: nat, channelType: string)
    requires Valid(m) && id !in m.index
    ensures Valid(Create(m, id, channelType))
  {
    hide C.Inv;
    FreshIsValid(id, channelType, m.max);
    var z := Create(m, id, channelType);
    assert IndexFits(z);
    forall n | 0 <= n < |z.table| ensures C.Inv(z.table[n]) {
      if n < |m.table| { assert z.table[n] == m.table[n]; }
    }
  }

  lemma NextKeepsValid(m: State, step: Step)
    requires Valid(m) && Enabled(m, step)
    ensures Valid(Next(m, step))
  {
    match step
    case OpenChannel(id, t) => if id >= 0 && id !in m.index { CreateKeepsValid(m, id, t); }
    case Line(j) => HandleKeepsValid(m, Classify(j));
    case Pull(n) => C.PullKeepsInv(m.table[n]); PutKeepsValid(m, n, C.Pull(m.table[n]), []);
    case Write(n, chunk) => PutKeepsValid(m, n, C.Write(m.table[n], chunk), C.WriteFrames(m.table[n], chunk));
    case Close(n) => C.CloseKeepsInv(m.table[n]); PutKeepsValid(m, n, C.Close(m.table[n]), C.CloseFrames(m.table[n]));
    case Reap(n) =>
    case StreamEnd => StreamEndKeepsValid(m);
  }

  lemma NextOfLine(m: State, j: Json)
    requires Valid(m) && !m.ended
    ensures Next(m, Line(j)) == Handle(m, Classify(j))
  {
  }

  lemma HandleKeepsValid(m: State, msg: Msg)
    requires Valid(m)
    ensures Valid(Handle(m, msg))
  {
    if msg.Opens? {
      if msg.id !in m.index { CreateKeepsValid(m, msg.id, msg.channelType); }
    } else if !msg.Other? && msg.id in m.index {
      var n := m.index[msg.id];
      var c := m.table[n];
      match msg
      case Carries(_, payload) => C.AcceptKeepsInv(c, payload); PutKeepsValid(m, n, C.Accept(c, payload), C.AcceptFrames(c, payload));
      case Ends(_) => C.FinishKeepsInv(c, C.Finished); PutKeepsValid(m, n, C.Finish(c, C.Finished), []);
      case Fails(_, message) =>
        C.FinishKeepsInv(c, C.Failed(C.Remote(message)));
        PutKeepsValid(m, n, C.Finish(c, C.Failed(C.Remote(message))), []);
    }
  }

  /** Forgetting an ended channel frees its id, unless a newer channel has it, and no other. */
  lemma ReapFrees(m: State, n: nat)
    requires Valid(m) && Enabled(m, Reap(n))
    ensures var z := Next(m, Reap(n));
            && z.table == m.table && z.out == m.out && z.ended == m.ended
            && (forall id :: id in z.index <==> id in m.index && m.index[id] != n)
            && (forall id <- z.index :: z.index[id] == m.index[id])
  {
    hide ChannelsValid;
  }

  /** The end of the stream fails exactly the channels still open, keeps what they had queued, and forgets every id. */
  lemma StreamEndFails(m: State)
    requires Valid(m) && Enabled(m, StreamEnd)
    ensures var z := Next(m, StreamEnd);
            && z.ended && z.index == map[] && z.out == m.out && |z.table| == |m.table|
            && forall n | 0 <= n < |m.table| ::
                 && (!m.table[n].ending.Open? ==> z.table[n] == m.table[n])
                 && (m.table[n].ending.Open? ==> z.table[n].ending == C.Failed(C.StreamLost))
                 && z.table[n].queue == m.table[n].queue && z.table[n].accepted == m.table[n].accepted
  {
    hide C.Inv;
  }

  lemma StreamEndKeepsValid(m: State)
    requires Valid(m)
    ensures Valid(StreamEnds(m))
  {
    forall n | 0 <= n < |m.table| ensures C.Inv(StreamEnds(m).table[n]) && !StreamEnds(m).table[n].ending.Open? {
      C.FinishKeepsInv(m.table[n], C.Failed(C.StreamLost));
    }
  }

  // ---------------------------------------------------------------- the object

  class ChannelMux {
    const maxQueuedBytes: nat
    /** Every channel object made so far; a closed one lives on for its reader. */
    var made: seq<C.Chan>
    var channels: map<nat, nat>
    var out: seq<Json>
    var ended: bool

    ghost function AsState(): State
      reads this
    {
      State(maxQueuedBytes, made, channels, out, ended)
    }

    constructor (maxQueuedBytes: nat)
      ensures AsState() == Start(maxQueuedBytes) && Valid(AsState())
    {
      this.maxQueuedBytes := maxQueuedBytes;
      made, channels, out, ended := [], map[], [], false;
    }

    /** Open a channel towards the peer; None for a bad id or one in use. */
    method Open(id: int, channelType: string) returns (ch: Option<nat>)
      requires Valid(AsState())
      modifies this
      ensures Valid(AsState()) && AsState() == Next(old(AsState()), OpenChannel(id, channelType))
      ensures ch.Some? <==> id >= 0 && id !in old(channels)
      ensures ch.Some? ==> ch.value == |old(made)| && channels == old(channels)[id := ch.value]
    {
      NextKeepsValid(AsState(), OpenChannel(id, channelType));
      if id < 0 || id in channels { return None; }
      out := out + [EncodeOpen(id, channelType)];
      var n := Make(id, channelType);
      return Some(n);
    }

    method Make(id: nat, channelType: string) returns (n: nat)
      modifies this
      ensures n == |old(made)| && made == old(made) + [C.Fresh(id, channelType, maxQueuedBytes)]
      ensures channels == old(channels)[id := n] && out == old(out) && ended == old(ended)
    {
      n := |made|;
      made := made + [C.Fresh(id, channelType, maxQueuedBytes)];
      channels := channels[id := n];
    }

    /** One decoded line of the inbound stream. */
    method HandleLine(j: Json)
      requires Valid(AsState()) && !ended
      modifies this
      ensures Valid(AsState()) && AsState() == Next(old(AsState()), Line(j))
    {
      hide C.Inv;
      hide Classify;
      NextKeepsValid(AsState(), Line(j));
      NextOfLine(AsState(), j);
      var msg := Classify(j);
      match msg
      case Opens(id, channelType) =>
        if id !in channels { var _ := Make(id, channelType); }
      case Other =>
      case _ => HandleFrame(msg);
    }

    /** A data, end or error frame: for the channel held under its id, if there is one. */
    method HandleFrame(msg: Msg)
      requires Valid(AsState()) && !msg.Opens? && !msg.Other?
      modifies this`made, this`out
      ensures AsState() == Handle(old(AsState()), msg)
    {
      hide C.Inv;
      if msg.id !in channels { return; }
      var n := channels[msg.id];
      var ch := made[n];
      assert C.Inv(ch);
      match msg {
        case Carries(_, payload) =>
          made := made[n := C.Accept(ch, payload)];
          out := out + EncodeFrames(C.AcceptFrames(ch, payload));
        case Ends(_) =>
          made := made[n := C.Finish(ch, C.Finished)];
          assert out + EncodeFrames([]) == out;
        case Fails(_, message) =>
          made := made[n := C.Finish(ch, C.Failed(C.Remote(message)))];
          assert out + EncodeFrames([]) == out;
      }
    }

    /** After a channel closed: forget it, unless its id has been taken again. */
    method Forget(n: nat)
      requires Valid(AsState()) && Enabled(AsState(), Reap(n))
      modifies this
      ensures Valid(AsState()) && AsState() == Next(old(AsState()), Reap(n))
    {
      NextKeepsValid(AsState(), Reap(n));
      if made[n].id in channels && channels[made[n].id] == n {
        channels := channels - {made[n].id};
      }
    }

    /** The stream has ended: fail every channel still held and drop them all. */
    method EndStream()
      requires Valid(AsState()) && !ended
      modifies this
      ensures Valid(AsState()) && AsState() == StreamEnds(old(AsState()))
    {
      hide C.Inv;
      StreamEndKeepsValid(AsState());
      ghost var before := AsState();
      for n := 0 to |made|
        invariant |made| == |before.table| && channels == before.index && out == before.out
        invariant forall k | 0 <= k < n :: made[k] == StreamEnds(before).table[k]
        invariant forall k | n <= k < |made| :: made[k] == before.table[k]
      {
        if made[n].id in channels && channels[made[n].id] == n {
          assert C.Inv(before.table[n]);
          made := made[n := C.Finish(made[n], C.Failed(C.StreamLost))];
        }
      }
      channels, ended := map[], true;
      assert made == StreamEnds(before).table;
    }
  }
}
