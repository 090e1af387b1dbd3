/** The base64 line transport of subprocess output (packages/subprocess-ssh/src/output.ts). */
module FrameDecoding {
  import opened Wrappers
  import opened Lines
  import opened Base64

  /** What a stretch of lines yields: stream bytes, control frames and diagnostics, each in order. */
  datatype Decoded = Decoded(bytes: seq<Byte>, controls: seq<string>, diagnostics: seq<string>)

  const NOTHING := Decoded([], [], [])

  function Join(a: Decoded, b: Decoded): Decoded {
    Decoded(a.bytes + b.bytes, a.controls + b.controls, a.diagnostics + b.diagnostics)
  }

  function StripCr(l: string): string {
    if l != "" && l[|l| - 1] == '\r' then l[..|l| - 1] else l
  }

  /** One complete line; None when it looks like base64 but is not what encoding its bytes gives. */
  function HandleLine(l: string): Option<Decoded> {
    var frame := StripCr(l);
    if frame == "" then Some(NOTHING)
    else if frame[0] == '!' then Some(Decoded([], [frame], []))
    else if !Base64Line(frame) then Some(Decoded([], [], [frame]))
    else if !Canonical(frame) then None
    else Some(Decoded(Decode(frame), [], []))
  }

  /**
   What a line is taken for, whether it ends in a CR or not: nothing if blank, a
   control frame, a payload, which re-encodes to itself, a transport error if
   base64-shaped without doing so, and a diagnostic in every other case.
   */
  lemma LineDecides(frame: string, l: string)
    requires l == frame + "\r" || (l == frame && (frame == "" || frame[|frame| - 1] != '\r'))
    ensures var d := HandleLine(l);
            var base64 := frame != "" && frame[0] != '!' && Base64Line(frame);
            && (frame == "" ==> d == Some(NOTHING))
            && (frame != "" && frame[0] == '!' ==> d == Some(Decoded([], [frame], [])))
            && (frame != "" && frame[0] != '!' && !base64 ==> d == Some(Decoded([], [], [frame])))
            && (d.None? <==> base64 && Encode(Decode(frame)) != frame)
            && (base64 && d.Some? ==> d.value == Decoded(Decode(frame), [], []) && Encode(d.value.bytes) == frame)
  {
    assert (frame + "\r")[..|frame|] == frame;
    assert StripCr(l) == frame;
  }

  function HandleLines(ls: seq<string>): Option<Decoded> {
    if ls == [] then Some(NOTHING)
    else
      var head, tail := HandleLine(ls[0]), HandleLines(ls[1..]);
      if head.None? || tail.None? then None else Some(Join(head.value, tail.value))
  }

  lemma FramesAssociate(a: seq<string>, b: seq<string>, c: seq<string>)
    ensures a + (b + c) == (a + b) + c
  {
  }

  lemma JoinParts(a: Decoded, b: Decoded)
    ensures var j := Join(a, b);
            j.bytes == a.bytes + b.bytes && j.controls == a.controls + b.controls && j.diagnostics == a.diagnostics + b.diagnostics
  {
  }

  lemma JoinAssociates(a: Decoded, b: Decoded, c: Decoded)
    ensures Join(Join(a, b), c) == Join(a, Join(b, c)) && Join(NOTHING, a) == a == Join(a, NOTHING)
  {
  }

  lemma {:induction false} HandleLinesAppend(a: seq<string>, b: seq<string>)
    ensures HandleLines(a + b) ==
              if HandleLines(a).None? || HandleLines(b).None? then None
              else Some(Join(HandleLines(a).value, HandleLines(b).value))
    decreases |a|
  {
    if a == [] {
      assert a + b == b;
      if HandleLines(b).Some? { JoinAssociates(HandleLines(b).value, NOTHING, NOTHING); }
    } else {
      assert (a + b)[1..] == a[1..] + b;
      HandleLinesAppend(a[1..], b);
      if HandleLines(a).Some? && HandleLines(b).Some? {
        JoinAssociates(HandleLine(a[0]).value, HandleLines(a[1..]).value, HandleLines(b).value);
      }
    }
  }

  lemma HandleOne(l: string)
    ensures HandleLines([l]) == HandleLine(l)
  {
    if HandleLine(l).Some? { JoinAssociates(HandleLine(l).value, NOTHING, NOTHING); }
  }

  /** Part way through a stretch of lines: `mine` is handled, `left` is still in `tail`. */
  ghost predicate Draining(all: Cut<char>, left: seq<string>, tail: string, mine: Decoded) {
    Split(tail, '\n') == Cut(left, all.rest) && HandleLines(all.lines) == After(mine, HandleLines(left))
  }

  lemma DrainStarts(tail: string)
    ensures Draining(Split(tail, '\n'), Split(tail, '\n').lines, tail, NOTHING)
  {
    hide HandleLine;
    var ls := Split(tail, '\n').lines;
    if HandleLines(ls).Some? { JoinAssociates(HandleLines(ls).value, NOTHING, NOTHING); }
  }

  lemma DrainOne(all: Cut<char>, left: seq<string>, tail: string, mine: Decoded, nl: nat)
    requires Draining(all, left, tail, mine) && nl == Find(tail, '\n') < |tail|
    ensures left != []
    ensures HandleLine(tail[..nl]).None? ==> HandleLines(all.lines).None?
    ensures HandleLine(tail[..nl]).Some? ==> Draining(all, left[1..], tail[nl + 1..], Join(mine, HandleLine(tail[..nl]).value))
  {
    hide HandleLine;
    SplitStep(tail, '\n', nl);
    hide Split;
    assert left[0] == tail[..nl];
    AfterOne(mine, left);
  }

  lemma DrainEnds(all: Cut<char>, left: seq<string>, tail: string, mine: Decoded)
    requires Draining(all, left, tail, mine) && Find(tail, '\n') == |tail|
    ensures tail == all.rest && '\n' !in tail && HandleLines(all.lines) == Some(mine)
  {
    SplitNone(tail, '\n');
    JoinAssociates(mine, NOTHING, NOTHING);
  }

  predicate IsSpace(c: char) {
    c == ' ' || c == '\t' || c == '\n' || c == '\r'
  }

  class FrameDecoder {
    var pending: string
    /** Frames handed to the control and diagnostic callbacks. */
    var controls: seq<string>
    var diagnostics: seq<string>

    constructor ()
      ensures pending == "" && controls == [] && diagnostics == []
    {
      pending, controls, diagnostics := "", [], [];
    }

    /** Decode every complete frame; None is the source's error, after which the stream is unusable. */
    method Push(text: string) returns (out: Option<seq<Byte>>)
      requires '\n' !in pending
      modifies this
      ensures var cut := Split(old(pending) + text, '\n');
              var all := HandleLines(cut.lines);
              && (out.Some? <==> all.Some?)
              && (out.Some? ==>
                    && out.value == all.value.bytes
                    && controls == old(controls) + all.value.controls
                    && diagnostics == old(diagnostics) + all.value.diagnostics
                    && pending == cut.rest && '\n' !in pending)
    {
      if text == "" {
        SplitNone(pending, '\n');
        assert pending + text == pending;
        return Some([]);
      }
      pending := pending + text;
      out := DrainLines();
    }

    /** Cut off and route every complete line of the buffer. */
    method DrainLines() returns (out: Option<seq<Byte>>)
      modifies this
      ensures var cut := Split(old(pending), '\n');
              var all := HandleLines(cut.lines);
              && (out.Some? <==> all.Some?)
              && (out.Some? ==>
                    && out.value == all.value.bytes
                    && controls == old(controls) + all.value.controls
                    && diagnostics == old(diagnostics) + all.value.diagnostics
                    && pending == cut.rest && '\n' !in pending)
    {
      hide HandleLine;
      hide HandleLines;
      hide Draining;
      hide Split;
      hide Join;
      ghost var all := Split(pending, '\n');
      ghost var left, mine := all.lines, NOTHING;
      DrainStarts(pending);
      var decoded: seq<Byte> := [];
      var boundary := Find(pending, '\n');
      while boundary < |pending|
        invariant boundary == Find(pending, '\n') && decoded == mine.bytes
        invariant Draining(all, left, pending, mine)
        invariant controls == old(controls) + mine.controls && diagnostics == old(diagnostics) + mine.diagnostics
        decreases |pending|
      {
        var line := pending[..boundary];
        DrainOne(all, left, pending, mine, boundary);
        pending := pending[boundary + 1..];
        var bytes := TakeLine(line);
        if bytes.None? { return None; }
        ghost var d := HandleLine(line).value;
        JoinParts(mine, d);
        FramesAssociate(old(controls), mine.controls, d.controls);
        FramesAssociate(old(diagnostics), mine.diagnostics, d.diagnostics);
        decoded := decoded + bytes.value;
        mine, left := Join(mine, d), left[1..];
        boundary := Find(pending, '\n');
      }
      DrainEnds(all, left, pending, mine);
      return Some(decoded);
    }

    /** Route one complete line: blank, control, diagnostic or payload. */
    method TakeLine(line: string) returns (bytes: Option<seq<Byte>>)
      modifies this`controls, this`diagnostics
      ensures bytes.Some? <==> HandleLine(line).Some?
      ensures bytes.Some? ==>
                && bytes.value == HandleLine(line).value.bytes
                && controls == old(controls) + HandleLine(line).value.controls
                && diagnostics == old(diagnostics) + HandleLine(line).value.diagnostics
    {
      var frame := StripCr(line);
      if frame == "" { return Some([]); }
      if frame[0] == '!' {
        controls := controls + [frame];
        return Some([]);
      }
      if !Base64Line(frame) {
        diagnostics := diagnostics + [frame];
        return Some([]);
      }
      var decoded := Decode(frame);
      if Encode(decoded) != frame { return None; }
      return Some(decoded);
    }

    /** A clean end leaves nothing but white space; a cut-off stream drops the partial frame. */
    method Finish(requireComplete: bool) returns (ok: bool)
      modifies this
      ensures ok <==> !requireComplete || forall c <- old(pending) :: c in {' ', '\t', '\n', '\r'}
      ensures pending == if requireComplete then old(pending) else ""
      ensures controls == old(controls) && diagnostics == old(diagnostics)
    {
      if !requireComplete {
        pending := "";
        return true;
      }
      for i := 0 to |pending|
        invariant forall j | 0 <= j < i :: IsSpace(pending[j])
      {
        if !IsSpace(pending[i]) {
          assert pending[i] in pending;
          return false;
        }
      }
      return true;
    }
  }

  function After(mine: Decoded, rest: Option<Decoded>): Option<Decoded> {
    if rest.None? then None else Some(Join(mine, rest.value))
  }

  lemma AfterOne(mine: Decoded, ls: seq<string>)
    requires ls != []
    ensures After(mine, HandleLines(ls)) ==
              if HandleLine(ls[0]).None? then None else After(Join(mine, HandleLine(ls[0]).value), HandleLines(ls[1..]))
  {
    if HandleLine(ls[0]).Some? && HandleLines(ls[1..]).Some? {
      JoinAssociates(mine, HandleLine(ls[0]).value, HandleLines(ls[1..]).value);
    }
  }

  // ---------------------------------------------------------------- whole streams

  /** Pushing chunk after chunk from `pending`: everything decoded and what is left over. */
  function PushAll(pending: string, chunks: seq<string>): Option<(Decoded, string)>
    decreases |chunks|
  {
    if chunks == [] then Some((NOTHING, pending))
    else
      var cut := Split(pending + chunks[0], '\n');
      var head, tail := HandleLines(cut.lines), PushAll(cut.rest, chunks[1..]);
      if head.None? || tail.None? then None else Some((Join(head.value, tail.value.0), tail.value.1))
  }

  /** However the stream is cut into chunks, decoding depends only on its lines. */
  lemma {:induction false} ChunkingIsIrrelevant(pending: string, chunks: seq<string>)
    requires '\n' !in pending
    ensures var cut := Split(pending + Concat(chunks), '\n');
            var all := HandleLines(cut.lines);
            PushAll(pending, chunks) == if all.None? then None else Some((all.value, cut.rest))
    decreases |chunks|
  {
    if chunks == [] {
      assert pending + [] == pending;
      SplitNone(pending, '\n');
    } else {
      var first := Split(pending + chunks[0], '\n');
      var rest := Split(first.rest + Concat(chunks[1..]), '\n');
      assert pending + Concat(chunks) == (pending + chunks[0]) + Concat(chunks[1..]);
      SplitAppend(pending + chunks[0], Concat(chunks[1..]), '\n');
      ChunkingIsIrrelevant(first.rest, chunks[1..]);
      HandleLinesAppend(first.lines, rest.lines);
    }
  }

  /** A line written by the remote wrapper: encoder output or a control frame. */
  datatype WireLine = Payload(text: string) | Control(text: string)

  function Texts(ws: seq<WireLine>): seq<string> {
    seq(|ws|, i requires 0 <= i < |ws| => ws[i].text)
  }

  function Payloads(ws: seq<WireLine>): seq<string> {
    if ws == [] then [] else (if ws[0].Payload? then [ws[0].text] else []) + Payloads(ws[1..])
  }

  function Controls(ws: seq<WireLine>): seq<string> {
    if ws == [] then [] else (if ws[0].Control? then [ws[0].text] else []) + Controls(ws[1..])
  }

  predicate ControlLine(l: string) {
    l != "" && l[0] == '!' && '\n' !in l && l[|l| - 1] != '\r'
  }

  lemma {:induction false} InterleavedLines(ws: seq<WireLine>)
    requires forall w <- ws :: if w.Payload? then PayloadLine(w.text) else ControlLine(w.text)
    ensures HandleLines(Texts(ws)) == Some(Decoded(DecodeAll(Payloads(ws)), Controls(ws), []))
    decreases |ws|
  {
    if ws != [] {
      var w := ws[0];
      assert Texts(ws)[1..] == Texts(ws[1..]);
      InterleavedLines(ws[1..]);
      assert StripCr(w.text) == w.text;
      var tail := Decoded(DecodeAll(Payloads(ws[1..])), Controls(ws[1..]), []);
      JoinAssociates(tail, NOTHING, NOTHING);
      if w.Control? {
        assert Payloads(ws) == Payloads(ws[1..]) && HandleLine(w.text) == Some(Decoded([], [w.text], []));
      } else {
        assert Controls(ws) == Controls(ws[1..]);
        assert Payloads(ws) == [w.text] + Payloads(ws[1..]) && Payloads(ws)[1..] == Payloads(ws[1..]);
      }
    }
  }

  lemma {:induction false} PayloadsAreLines(ws: seq<WireLine>)
    requires forall l <- Payloads(ws) :: PayloadLine(l)
    requires forall w <- ws :: w.Control? ==> ControlLine(w.text)
    ensures forall w <- ws :: if w.Payload? then PayloadLine(w.text) else ControlLine(w.text)
    decreases |ws|
  {
    if ws != [] {
      if ws[0].Payload? { assert Payloads(ws)[0] == ws[0].text; }
      assert forall l <- Payloads(ws[1..]) :: l in Payloads(ws);
      PayloadsAreLines(ws[1..]);
      assert forall w <- ws :: w == ws[0] || w in ws[1..];
    }
  }

  /**
   Every byte string, encoded, wrapped at 76 columns, interleaved with control
   lines and cut anywhere, is decoded back exactly; the canonical check never
   fires, nothing is taken for a diagnostic, and nothing is left over.
   */
  lemma FramesRoundTrip(b: seq<Byte>, ws: seq<WireLine>, chunks: seq<string>)
    requires Payloads(ws) == Wrap(Encode(b))
    requires forall w <- ws :: w.Control? ==> ControlLine(w.text)
    requires Concat(chunks) == Terminated(Texts(ws), '\n')
    ensures PushAll("", chunks) == Some((Decoded(b, Controls(ws), []), ""))
  {
    WrappedLines(b);
    PayloadsAreLines(ws);
    InterleavedLines(ws);
    SplitTerminated(Texts(ws), '\n');
    assert "" + Concat(chunks) == Concat(chunks);
    ChunkingIsIrrelevant("", chunks);
  }

  /** A base64-shaped line that is not canonical stops the decoder, whatever surrounds it. */
  lemma NonCanonicalIsRefused(before: seq<string>, l: string, after: seq<string>)
    requires Base64Line(l) && !Canonical(l) && l[|l| - 1] != '\r'
    ensures HandleLines(before + [l] + after).None?
  {
    assert IsDigitChar(l[0]);
    HandleOne(l);
    HandleLinesAppend(before, [l]);
    HandleLinesAppend(before + [l], after);
  }
}
