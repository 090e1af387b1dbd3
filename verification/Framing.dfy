/**
 Newline-delimited JSON framing (packages/remote-core/src/framing.ts): the
 incremental line decoder with its byte cap, and data frames with base64
 payloads told apart from plain JSON-RPC messages by a marker field.
 */
module Framing {
  import opened Wrappers
  import opened Lines
  import opened Base64

  datatype Json =
    | JNull
    | JBool(b: bool)
    | JNumber(n: real)
    | JString(s: string)
    | JArray(items: seq<Json>)
    | JObject(fields: map<string, Json>)

  /** How values are written as JSON text, in bytes, and read back. */
  datatype Codec = Codec(render: Json -> seq<Byte>, parse: seq<Byte> -> Option<Json>)

  const NEWLINE: Byte := 10

  predicate Blank(line: seq<Byte>) {
    forall b <- line :: b == 32 || (9 <= b && b <= 13)
  }

  /** What is written for each of these messages is one line, is not blank, and parses back. */
  ghost predicate Sound(codec: Codec, messages: seq<Json>) {
    forall j <- messages ::
      codec.parse(codec.render(j)) == Some(j) && NEWLINE !in codec.render(j) && !Blank(codec.render(j))
  }

  function Position(messages: seq<Json>, j: Json): (i: nat)
    ensures j in messages ==> i < |messages| && messages[i] == j
  {
    if messages == [] || messages[0] == j then 0 else 1 + Position(messages[1..], j)
  }

  /** Each message written as its position, in unary. */
  function Tally(messages: seq<Json>): Codec {
    Codec(j => seq(1 + Position(messages, j), _ => 49),
          line => if 0 < |line| <= |messages| then Some(messages[|line| - 1]) else None)
  }

  /** Whatever is to be written, some codec is sound for it. */
  lemma TallyIsSound(messages: seq<Json>)
    ensures Sound(Tally(messages), messages)
  {
    var codec := Tally(messages);
    forall j | j in messages
      ensures codec.parse(codec.render(j)) == Some(j) && NEWLINE !in codec.render(j) && !Blank(codec.render(j))
    {
      var line := codec.render(j);
      assert |line| == 1 + Position(messages, j) && line[0] == 49 && forall b <- line :: b == 49;
      assert line[0] in line;
    }
  }

  // ---------------------------------------------------------------- lines

  /** The message one complete line carries, if any. */
  function Message(codec: Codec, line: seq<Byte>): seq<Json> {
    if Blank(line) || codec.parse(line).None? then [] else [codec.parse(line).value]
  }

  function Unparsed(codec: Codec, line: seq<Byte>): seq<seq<Byte>> {
    if Blank(line) || codec.parse(line).Some? then [] else [line]
  }

  /** The messages a list of complete lines carries: blank lines and lines that do not parse carry none. */
  function Messages(codec: Codec, lines: seq<seq<Byte>>): seq<Json> {
    if lines == [] then [] else Message(codec, lines[0]) + Messages(codec, lines[1..])
  }

  function Invalid(codec: Codec, lines: seq<seq<Byte>>): seq<seq<Byte>> {
    if lines == [] then [] else Unparsed(codec, lines[0]) + Invalid(codec, lines[1..])
  }

  /** Part way through a stretch of lines: `out` and `bad` are done, `left` is still in `tail`. */
  ghost predicate Draining(codec: Codec, all: Cut<Byte>, left: seq<seq<Byte>>, tail: seq<Byte>, out: seq<Json>, bad: seq<seq<Byte>>) {
    && Split(tail, NEWLINE) == Cut(left, all.rest)
    && out + Messages(codec, left) == Messages(codec, all.lines)
    && bad + Invalid(codec, left) == Invalid(codec, all.lines)
  }

  lemma DrainStarts(codec: Codec, tail: seq<Byte>)
    ensures var cut := Split(tail, NEWLINE); Draining(codec, cut, cut.lines, tail, [], [])
  {
  }

  lemma DrainOne(codec: Codec, all: Cut<Byte>, left: seq<seq<Byte>>, tail: seq<Byte>, out: seq<Json>, bad: seq<seq<Byte>>, nl: nat)
    requires Draining(codec, all, left, tail, out, bad) && nl == Find(tail, NEWLINE) < |tail|
    ensures left != [] && left[0] == tail[..nl] && Split(tail[nl + 1..], NEWLINE) == Cut(left[1..], all.rest)
    ensures Draining(codec, all, left[1..], tail[nl + 1..], out + Message(codec, tail[..nl]), bad + Unparsed(codec, tail[..nl]))
    ensures Unparsed(codec, tail[..nl]) != [] ==> Invalid(codec, all.lines) != []
  {
    hide Message;
    hide Unparsed;
    SplitStep(tail, NEWLINE, nl);
    hide Split;
    assert left[0] == tail[..nl];
    assert Messages(codec, left) == Message(codec, left[0]) + Messages(codec, left[1..]);
    assert Invalid(codec, left) == Unparsed(codec, left[0]) + Invalid(codec, left[1..]);
  }

  lemma StopHere(codec: Codec, all: Cut<Byte>, left: seq<seq<Byte>>, tail: seq<Byte>, k: nat)
    requires Split(tail, NEWLINE) == Cut(left, all.rest) && k < |all.lines| && left == all.lines[k + 1..]
    requires Unparsed(codec, all.lines[k]) != [] && forall j | 0 <= j < k :: Unparsed(codec, all.lines[j]) == []
    ensures StoppedAt(codec, all, tail, k)
  {
  }

  lemma DrainEnds(codec: Codec, all: Cut<Byte>, left: seq<seq<Byte>>, tail: seq<Byte>, out: seq<Json>, bad: seq<seq<Byte>>)
    requires Draining(codec, all, left, tail, out, bad) && Find(tail, NEWLINE) == |tail|
    ensures tail == all.rest && out == Messages(codec, all.lines) && bad == Invalid(codec, all.lines)
  {
    SplitNone(tail, NEWLINE);
  }

  lemma {:induction false} MessagesAppend(codec: Codec, a: seq<seq<Byte>>, b: seq<seq<Byte>>)
    ensures Messages(codec, a + b) == Messages(codec, a) + Messages(codec, b)
    ensures Invalid(codec, a + b) == Invalid(codec, a) + Invalid(codec, b)
    decreases |a|
  {
    if a == [] {
      assert a + b == b;
    } else {
      assert (a + b)[1..] == a[1..] + b;
      MessagesAppend(codec, a[1..], b);
    }
  }

  /** Line `k` is the first that does not parse, and the lines behind it are still in `tail`. */
  ghost predicate StoppedAt(codec: Codec, all: Cut<Byte>, tail: seq<Byte>, k: nat) {
    && k < |all.lines| && Unparsed(codec, all.lines[k]) != [] && (forall j | 0 <= j < k :: Unparsed(codec, all.lines[j]) == [])
    && Split(tail, NEWLINE) == Cut(all.lines[k + 1..], all.rest)
  }

  datatype Pushed = Pushed(messages: seq<Json>) | TooLong | BadLine

  class LineDecoder {
    const codec: Codec
    const maxLineBytes: nat
    /** With a handler, lines that do not parse are reported to it and skipped. */
    const handlesInvalid: bool
    var tail: seq<Byte>
    var lineBytes: nat
    var reported: seq<seq<Byte>>

    ghost predicate Valid()
      reads this
    {
      lineBytes == |tail|
    }

    /** The cap has been tripped: the source never resets the count, so every later push fails too. */
    predicate Tripped()
      reads this
    {
      lineBytes > maxLineBytes
    }

    constructor (codec: Codec, maxLineBytes: nat, handlesInvalid: bool)
      ensures Valid() && tail == [] && reported == []
      ensures this.codec == codec && this.maxLineBytes == maxLineBytes && this.handlesInvalid == handlesInvalid
    {
      this.codec, this.maxLineBytes, this.handlesInvalid := codec, maxLineBytes, handlesInvalid;
      tail, lineBytes, reported := [], 0, [];
    }

    /** The cap counts the partial line and the whole chunk, before the chunk is cut into lines. */
    method Push(chunk: seq<Byte>) returns (r: Pushed)
      requires Valid() || Tripped()
      modifies this
      ensures r.TooLong? <==> old(lineBytes) + |chunk| > maxLineBytes
      ensures if r.TooLong? then Tripped() && tail == old(tail) && reported == old(reported) else Valid()
      ensures var cut := Split(old(tail) + chunk, NEWLINE);
              && (r.BadLine? <==> !r.TooLong? && !handlesInvalid && Invalid(codec, cut.lines) != [])
              && (r.BadLine? ==> reported == old(reported) && exists k: nat :: StoppedAt(codec, cut, tail, k))
              && (r.Pushed? ==>
                    && tail == cut.rest
                    && r.messages == Messages(codec, cut.lines)
                    && reported == old(reported) + Invalid(codec, cut.lines))
    {
      lineBytes := lineBytes + |chunk|;
      if lineBytes > maxLineBytes { return TooLong; }
      tail := tail + chunk;
      r := DrainLines();
    }

    /** Cut off, parse and collect every complete line of the buffer. */
    method DrainLines() returns (r: Pushed)
      requires Valid()
      modifies this
      ensures Valid() && !r.TooLong?
      ensures var cut := Split(old(tail), NEWLINE);
              && (r.BadLine? <==> !handlesInvalid && Invalid(codec, cut.lines) != [])
              && (r.BadLine? ==> reported == old(reported) && exists k: nat :: StoppedAt(codec, cut, tail, k))
              && (r.Pushed? ==>
                    && tail == cut.rest
                    && r.messages == Messages(codec, cut.lines)
                    && reported == old(reported) + Invalid(codec, cut.lines))
    {
      hide Draining;
      hide Messages;
      hide Invalid;
      hide Split;
      ghost var all := Split(tail, NEWLINE);
      ghost var left, bad, k := all.lines, [], 0;
      DrainStarts(codec, tail);
      var out: seq<Json> := [];
      var nl := Find(tail, NEWLINE);
      while nl < |tail|
        invariant nl == Find(tail, NEWLINE) && lineBytes == |tail|
        invariant Draining(codec, all, left, tail, out, bad)
        invariant reported == old(reported) + bad && (!handlesInvalid ==> bad == [])
        invariant 0 <= k <= |all.lines| && left == all.lines[k..]
        invariant !handlesInvalid ==> forall j | 0 <= j < k :: Unparsed(codec, all.lines[j]) == []
        decreases |tail|
      {
        DrainOne(codec, all, left, tail, out, bad, nl);
        assert out + [] == out && bad + [] == bad;
        var raw := tail[..nl];
        left, bad, k := left[1..], bad + Unparsed(codec, raw), k + 1;
        tail := tail[nl + 1..];
        lineBytes := |tail|;
        nl := Find(tail, NEWLINE);
        if Blank(raw) { continue; }
        var parsed := codec.parse(raw);
        if parsed.Some? {
          out := out + [parsed.value];
        } else if handlesInvalid {
          reported := reported + [raw];
        } else {
          StopHere(codec, all, left, tail, k - 1);
          return BadLine;
        }
      }
      DrainEnds(codec, all, left, tail, out, bad);
      return Pushed(out);
    }

    /** A stream that ends inside a line is an error; blank rests are not. */
    method Flush() returns (ok: bool)
      modifies this
      ensures ok <==> Blank(old(tail))
      ensures Valid() && tail == [] && reported == old(reported)
    {
      ok := Blank(tail);
      tail, lineBytes := [], 0;
    }
  }

  /** No chunk, together with the partial line before it, exceeds the cap. */
  predicate WithinCap(tail: seq<Byte>, chunks: seq<seq<Byte>>, max: nat)
    decreases |chunks|
  {
    chunks == [] || (|tail| + |chunks[0]| <= max && WithinCap(Split(tail + chunks[0], NEWLINE).rest, chunks[1..], max))
  }

  /** What pushing chunk after chunk yields, and the partial line left. */
  function PushAll(codec: Codec, tail: seq<Byte>, chunks: seq<seq<Byte>>): (seq<Json>, seq<Byte>)
    decreases |chunks|
  {
    if chunks == [] then ([], tail)
    else
      var cut := Split(tail + chunks[0], NEWLINE);
      var (later, rest) := PushAll(codec, cut.rest, chunks[1..]);
      (Messages(codec, cut.lines) + later, rest)
  }

  lemma {:induction false} PushAllMore(codec: Codec, tail: seq<Byte>, chunks: seq<seq<Byte>>, c: seq<Byte>)
    ensures var (before, rest) := PushAll(codec, tail, chunks);
            var cut := Split(rest + c, NEWLINE);
            PushAll(codec, tail, chunks + [c]) == (before + Messages(codec, cut.lines), cut.rest)
    decreases |chunks|
  {
    hide Messages;
    hide Split;
    if chunks == [] {
      assert [] + [c] == [c] && [c][1..] == [];
      var cut := Split(tail + c, NEWLINE);
      assert Messages(codec, cut.lines) + [] == [] + Messages(codec, cut.lines);
    } else {
      assert (chunks + [c])[1..] == chunks[1..] + [c];
      var first := Split(tail + chunks[0], NEWLINE);
      PushAllMore(codec, first.rest, chunks[1..], c);
      var (later, rest) := PushAll(codec, first.rest, chunks[1..]);
      var last := Messages(codec, Split(rest + c, NEWLINE).lines);
      assert Messages(codec, first.lines) + (later + last) == (Messages(codec, first.lines) + later) + last;
    }
  }

  lemma {:induction false} WithinCapMore(codec: Codec, tail: seq<Byte>, chunks: seq<seq<Byte>>, c: seq<Byte>, max: nat)
    ensures WithinCap(tail, chunks + [c], max) <==> WithinCap(tail, chunks, max) && |PushAll(codec, tail, chunks).1| + |c| <= max
    decreases |chunks|
  {
    hide Messages;
    hide Split;
    if chunks == [] {
      assert [] + [c] == [c] && [c][1..] == [];
    } else {
      assert (chunks + [c])[1..] == chunks[1..] + [c];
      WithinCapMore(codec, Split(tail + chunks[0], NEWLINE).rest, chunks[1..], c, max);
    }
  }

  lemma {:induction false} WithinCapPrefix(tail: seq<Byte>, chunks: seq<seq<Byte>>, k: nat, max: nat)
    requires k <= |chunks| && WithinCap(tail, chunks, max)
    ensures WithinCap(tail, chunks[..k], max)
    decreases k
  {
    if k > 0 {
      assert chunks[..k][1..] == chunks[1..][..k - 1];
      WithinCapPrefix(Split(tail + chunks[0], NEWLINE).rest, chunks[1..], k - 1, max);
    }
  }

  /**
   The read loop of a stream: every chunk through the decoder, up to the first
   that trips the cap. Without one, the messages are those of the whole stream.
   */
  method Pump(decoder: LineDecoder, chunks: seq<seq<Byte>>) returns (messages: seq<Json>, ok: bool, ghost read: nat)
    requires decoder.Valid() && decoder.handlesInvalid
    modifies decoder
    ensures ok <==> WithinCap(old(decoder.tail), chunks, decoder.maxLineBytes)
    ensures read <= |chunks| && (ok <==> read == |chunks|)
    ensures (messages, decoder.tail) == PushAll(decoder.codec, old(decoder.tail), chunks[..read])
    ensures !ok ==> |decoder.tail| + |chunks[read]| > decoder.maxLineBytes
  {
    hide PushAll;
    hide WithinCap;
    hide Messages;
    hide Invalid;
    hide Split;
    messages, read := [], 0;
    PushNothing(decoder.codec, decoder.tail, decoder.maxLineBytes);
    assert chunks[..0] == [];
    for i := 0 to |chunks|
      invariant decoder.Valid() && read == i
      invariant (messages, decoder.tail) == PushAll(decoder.codec, old(decoder.tail), chunks[..i])
      invariant WithinCap(old(decoder.tail), chunks[..i], decoder.maxLineBytes)
    {
      assert chunks[..i + 1] == chunks[..i] + [chunks[i]];
      PushAllMore(decoder.codec, old(decoder.tail), chunks[..i], chunks[i]);
      WithinCapMore(decoder.codec, old(decoder.tail), chunks[..i], chunks[i], decoder.maxLineBytes);
      var pushed := decoder.Push(chunks[i]);
      if pushed.TooLong? {
        if WithinCap(old(decoder.tail), chunks, decoder.maxLineBytes) {
          WithinCapPrefix(old(decoder.tail), chunks, i + 1, decoder.maxLineBytes);
        }
        return messages, false, i;
      }
      messages := messages + pushed.messages;
      read := i + 1;
    }
    assert chunks[..|chunks|] == chunks;
    return messages, true, |chunks|;
  }

  lemma PushNothing(codec: Codec, tail: seq<Byte>, max: nat)
    ensures PushAll(codec, tail, []) == ([], tail) && WithinCap(tail, [], max)
  {
  }

  /** However a stream is cut, its messages are those of its lines. */
  lemma {:induction false} ChunkingIsIrrelevant(codec: Codec, tail: seq<Byte>, chunks: seq<seq<Byte>>)
    requires NEWLINE !in tail
    ensures var cut := Split(tail + Concat(chunks), NEWLINE);
            PushAll(codec, tail, chunks) == (Messages(codec, cut.lines), cut.rest)
    decreases |chunks|
  {
    hide Split;
    hide Messages;
    if chunks == [] {
      assert tail + [] == tail;
      SplitNone(tail, NEWLINE);
      NoMessages(codec);
    } else {
      var first := Split(tail + chunks[0], NEWLINE);
      assert tail + Concat(chunks) == (tail + chunks[0]) + Concat(chunks[1..]);
      SplitAppend(tail + chunks[0], Concat(chunks[1..]), NEWLINE);
      ChunkingIsIrrelevant(codec, first.rest, chunks[1..]);
      MessagesAppend(codec, first.lines, Split(first.rest + Concat(chunks[1..]), NEWLINE).lines);
    }
  }

  lemma NoMessages(codec: Codec)
    ensures Messages(codec, []) == []
  {
  }

  /** What the sender writes for each message. */
  function Rendered(codec: Codec, messages: seq<Json>): seq<seq<Byte>> {
    seq(|messages|, i requires 0 <= i < |messages| => codec.render(messages[i]))
  }

  lemma {:induction false} RenderedMessages(codec: Codec, messages: seq<Json>)
    requires Sound(codec, messages)
    ensures Messages(codec, Rendered(codec, messages)) == messages && Invalid(codec, Rendered(codec, messages)) == []
    decreases |messages|
  {
    if messages != [] {
      assert Rendered(codec, messages)[1..] == Rendered(codec, messages[1..]);
      assert codec.parse(codec.render(messages[0])) == Some(messages[0]) && !Blank(codec.render(messages[0]));
      RenderedMessages(codec, messages[1..]);
    }
  }

  /** Messages written as lines and cut anywhere come out as they went in, and nothing is left over. */
  lemma LinesRoundTrip(codec: Codec, messages: seq<Json>, chunks: seq<seq<Byte>>)
    requires Sound(codec, messages) && Concat(chunks) == Terminated(Rendered(codec, messages), NEWLINE)
    ensures PushAll(codec, [], chunks) == (messages, [])
  {
    var lines := Rendered(codec, messages);
    RenderedMessages(codec, messages);
    assert forall l <- lines :: NEWLINE !in l;
    SplitTerminated(lines, NEWLINE);
    assert [] + Concat(chunks) == Concat(chunks);
    ChunkingIsIrrelevant(codec, [], chunks);
  }

  // ---------------------------------------------------------------- data frames

  const MARKER := "$dsh-remote-frame"

  datatype Kind = Data | End | Error

  datatype Frame = Frame(channel: int, kind: Kind, payload: Option<seq<Byte>>, message: Option<string>)

  function KindName(k: Kind): string {
    match k case Data => "data" case End => "end" case Error => "error"
  }

  function EncodeFrame(f: Frame): Json {
    var base := map[MARKER := JNumber(1.0), "channel" := JNumber(f.channel as real), "type" := JString(KindName(f.kind))];
    var payload := if f.payload.Some? then base["payload" := JString(Encode(f.payload.value))] else base;
    JObject(if f.message.Some? then payload["message" := JString(f.message.value)] else payload)
  }

  predicate IsFrameMessage(j: Json) {
    j.JObject? && MARKER in j.fields && j.fields[MARKER] == JNumber(1.0)
  }

  /** A non-negative integer in field `channel`, or nothing. */
  function ChannelOf(j: Json): Option<nat>
    requires j.JObject?
  {
    if "channel" in j.fields && j.fields["channel"].JNumber? then
      var n := j.fields["channel"].n;
      if n.Floor as real == n && n >= 0.0 then Some(n.Floor) else None
    else None
  }

  function TextOf(j: Json, key: string): Option<string>
    requires j.JObject?
  {
    if key in j.fields && j.fields[key].JString? then Some(j.fields[key].s) else None
  }

  function DecodeFrame(j: Json): Option<Frame> {
    if !IsFrameMessage(j) then None
    else
      var channel, kind := ChannelOf(j), TextOf(j, "type");
      if channel.None? || kind.None? || kind.value !in {"data", "end", "error"} then None
      else
        var payload := TextOf(j, "payload");
        Some(Frame(channel.value,
                   if kind.value == "data" then Data else if kind.value == "end" then End else Error,
                   if payload.Some? then Some(Decode(payload.value)) else None,
                   TextOf(j, "message")))
  }

  /** Every frame survives the wire exactly when its channel number is a legal one. */
  lemma FrameRoundTrip(f: Frame)
    ensures DecodeFrame(EncodeFrame(f)) == (if f.channel >= 0 then Some(f) else None)
  {
    var j := EncodeFrame(f);
    assert IsFrameMessage(j);
    assert (f.channel as real).Floor == f.channel;
    if f.payload.Some? { DecodeEncode(f.payload.value); }
    hide Encode;
    hide Decode;
  }

  function EncodeOpen(channel: int, channelType: string): Json {
    JObject(map[MARKER := JNumber(1.0), "channel" := JNumber(channel as real), "type" := JString("open"), "channelType" := JString(channelType)])
  }

  datatype OpenFrame = OpenFrame(channel: nat, channelType: string)

  function DecodeOpen(j: Json): Option<OpenFrame> {
    if !IsFrameMessage(j) || TextOf(j, "type") != Some("open") || ChannelOf(j).None? then None
    else Some(OpenFrame(ChannelOf(j).value, TextOf(j, "channelType").GetOr("data")))
  }

  /** Open frames and data frames are never mistaken for each other. */
  lemma OpenRoundTrip(channel: nat, channelType: string, f: Frame)
    ensures DecodeOpen(EncodeOpen(channel, channelType)) == Some(OpenFrame(channel, channelType))
    ensures DecodeFrame(EncodeOpen(channel, channelType)).None? && DecodeOpen(EncodeFrame(f)).None?
  {
    assert (channel as real).Floor == channel;
  }

  /** The field holds exactly this value. */
  predicate Says(j: Json, key: string, value: Json) {
    j.JObject? && key in j.fields && j.fields[key] == value
  }

  /** A frame as the wire has it: marker, a channel number, and one of the three kinds under its name. */
  ghost predicate FrameOnWire(j: Json, channel: nat, kind: Kind) {
    && Says(j, "$dsh-remote-frame", JNumber(1.0)) && Says(j, "channel", JNumber(channel as real))
    && Says(j, "type", JString(match kind case Data => "data" case End => "end" case Error => "error"))
  }

  /** What comes out of a message of any origin, by its fields: a frame exactly if it is one on the wire, with payload and message if they are strings. */
  lemma FrameDecides(j: Json, channel: nat, kind: Kind)
    ensures DecodeFrame(j).Some? && DecodeFrame(j).value.channel == channel && DecodeFrame(j).value.kind == kind <==> FrameOnWire(j, channel, kind)
    ensures DecodeFrame(j).Some? ==>
              var f := DecodeFrame(j).value;
              && f.channel >= 0 && (f.payload.Some? <==> "payload" in j.fields && j.fields["payload"].JString?)
              && (f.payload.Some? ==> f.payload.value == Decode(j.fields["payload"].s))
              && (f.message.Some? <==> "message" in j.fields && j.fields["message"].JString?)
              && (f.message.Some? ==> f.message.value == j.fields["message"].s)
  {
    assert (channel as real).Floor == channel;
    hide Decode;
  }

  /** What an encoded frame looks like on the wire. */
  lemma EncodedFrameIs(f: Frame)
    requires f.channel >= 0
    ensures FrameOnWire(EncodeFrame(f), f.channel, f.kind)
    ensures var fields := EncodeFrame(f).fields;
            && ("payload" in fields <==> f.payload.Some?) && (f.payload.Some? ==> fields["payload"] == JString(Encode(f.payload.value)))
            && ("message" in fields <==> f.message.Some?) && (f.message.Some? ==> fields["message"] == JString(f.message.value))
  {
    hide Encode;
  }

  /** An open frame, by its fields; without a type of its own the channel carries data. */
  lemma OpenDecides(j: Json, channel: nat)
    ensures DecodeOpen(j).Some? && DecodeOpen(j).value.channel == channel <==>
              Says(j, "$dsh-remote-frame", JNumber(1.0)) && Says(j, "channel", JNumber(channel as real)) && Says(j, "type", JString("open"))
    ensures DecodeOpen(j).Some? ==>
              DecodeOpen(j).value.channelType ==
                if "channelType" in j.fields && j.fields["channelType"].JString? then j.fields["channelType"].s else "data"
  {
    assert (channel as real).Floor == channel;
  }
}
