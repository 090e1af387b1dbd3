/** The bounded tail of a collected output stream (packages/subprocess-ssh/src/output.ts). */
module TailOutput {
  import opened Wrappers
  import opened Lines
  import opened Base64

  datatype Read = Read(bytes: seq<Byte>, nextOffset: nat, lossy: bool, spill: bool)

  function Min(a: int, b: int): int {
    if a < b then a else b
  }

  /** The last `n` elements, or all of them. */
  function Last(s: seq<Byte>, n: nat): seq<Byte> {
    if |s| <= n then s else s[|s| - n..]
  }

  /** What a read at `from` yields when a tail of `max` bytes is kept. */
  function ReadOf(stream: seq<Byte>, max: nat, from: int): seq<Byte> {
    var first := |stream| - Min(|stream|, max);
    if from < first then stream[first..] else if from > |stream| then [] else stream[from..]
  }

  predicate Lossy(stream: seq<Byte>, max: nat, from: int) {
    from < |stream| - Min(|stream|, max)
  }

  lemma {:induction false} ConcatSnoc(chunks: seq<seq<Byte>>, c: seq<Byte>)
    ensures Concat(chunks + [c]) == Concat(chunks) + c
  {
    ConcatAppend(chunks, [c]);
    assert Concat([c]) == c + [];
  }

  function Flat(chunks: seq<seq<Byte>>): (f: seq<Byte>)
    ensures chunks == [] ==> f == []
  {
    Concat(chunks)
  }

  /** Dropping the head chunk, or `excess` of its bytes, keeps the last `max` bytes. */
  lemma DropHead(chunks: seq<seq<Byte>>, max: nat, excess: nat)
    requires chunks != [] && |Flat(chunks)| == max + excess
    ensures var head, rest := chunks[0], chunks[1..];
            && |Flat(chunks)| == |head| + |Flat(rest)|
            && (|head| <= excess ==> Last(Flat(rest), max) == Last(Flat(chunks), max))
            && (excess <= |head| ==> Flat([head[excess..]] + rest) == Last(Flat(chunks), max))
  {
    var head, rest := chunks[0], chunks[1..];
    assert Flat(chunks) == head + Flat(rest);
    if excess <= |head| {
      assert ([head[excess..]] + rest)[1..] == rest;
      assert Flat([head[excess..]] + rest) == head[excess..] + Flat(rest);
    }
  }

  lemma LastOfLast(s: seq<Byte>, n: nat)
    ensures Last(Last(s, n), n) == Last(s, n) && |Last(s, n)| == Min(|s|, n)
  {
  }

  lemma LastOfShort(s: seq<Byte>, n: nat)
    requires |s| <= n
    ensures Last(s, n) == s
  {
  }

  /** Appending to a tail of the stream keeps a tail of the stream. */
  lemma TailMore(stream: seq<Byte>, bytes: seq<Byte>, max: nat)
    ensures Last(Last(stream, max) + bytes, max) == Last(stream + bytes, max)
  {
  }

  class TailOutputReader {
    const maxBytes: nat
    const maxSpillBytes: Option<nat>
    var chunks: seq<seq<Byte>>
    var retainedBytes: nat
    var totalBytes: nat
    var spillValid: bool
    /** The whole stream pushed so far. */
    ghost var stream: seq<Byte>

    ghost predicate Valid()
      reads this
    {
      && Flat(chunks) == Last(stream, maxBytes)
      && retainedBytes == |Flat(chunks)|
      && totalBytes == |stream|
    }

    constructor (maxBytes: nat, maxSpillBytes: Option<nat>)
      ensures Valid() && stream == [] && spillValid
      ensures this.maxBytes == maxBytes && this.maxSpillBytes == maxSpillBytes
    {
      this.maxBytes, this.maxSpillBytes := maxBytes, maxSpillBytes;
      chunks, retainedBytes, totalBytes, spillValid, stream := [], 0, 0, true, [];
    }

    method InvalidateSpill()
      requires Valid()
      modifies this
      ensures Valid() && stream == old(stream) && !spillValid
    {
      spillValid := false;
    }

    /** Append stream bytes, dropping whole or partial chunks from the head until the cap is met. */
    method Push(bytes: seq<Byte>)
      requires Valid()
      modifies this
      ensures Valid() && stream == old(stream) + bytes && spillValid == old(spillValid)
    {
      if bytes == [] {
        assert stream + bytes == stream;
        return;
      }
      ConcatSnoc(chunks, bytes);
      TailMore(stream, bytes, maxBytes);
      totalBytes, stream := totalBytes + |bytes|, stream + bytes;
      chunks := chunks + [bytes];
      retainedBytes := retainedBytes + |bytes|;
      hide Flat;
      hide Last;
      while retainedBytes > maxBytes
        invariant retainedBytes == |Flat(chunks)| && Last(Flat(chunks), maxBytes) == Last(stream, maxBytes)
        invariant totalBytes == |stream| && stream == old(stream) + bytes && spillValid == old(spillValid)
        decreases |chunks|, retainedBytes
      {
        var excess := retainedBytes - maxBytes;
        DropHead(chunks, maxBytes, excess);
        var head, rest := chunks[0], chunks[1..];
        if |head| <= excess {
          chunks := rest;
          retainedBytes := retainedBytes - |head|;
        } else {
          LastOfLast(Flat(chunks), maxBytes);
          chunks := [head[excess..]] + rest;
          retainedBytes := retainedBytes - excess;
        }
      }
      LastOfShort(Flat(chunks), maxBytes);
    }

    method ReadFrom(fromByte: int) returns (r: Read)
      requires Valid()
      ensures r.bytes == ReadOf(stream, maxBytes, fromByte)
      ensures r.nextOffset == |stream|
      ensures r.lossy <==> Lossy(stream, maxBytes, fromByte)
      ensures r.spill <==> r.lossy && spillValid && maxSpillBytes.Some? && |stream| <= maxSpillBytes.value
    {
      var retained := Flat(chunks);
      var firstRetained := totalBytes - retainedBytes;
      var lossy := fromByte < firstRetained;
      var start := if lossy then 0 else Min(|retained|, if fromByte < firstRetained then 0 else fromByte - firstRetained);
      var spill := lossy && spillValid && maxSpillBytes.Some? && totalBytes <= maxSpillBytes.value;
      r := Read(retained[start..], totalBytes, lossy, spill);
    }
  }

  // ---------------------------------------------------------------- readers that follow along

  /** A reader chaining `nextOffset`: where it started, where it is, what it collected, and whether it ever lost bytes. */
  datatype Follower = Follower(stream: seq<Byte>, start: nat, offset: nat, got: seq<Byte>, lost: bool)

  datatype Move = Produce(bytes: seq<Byte>) | Poll

  function Next(f: Follower, max: nat, move: Move): Follower {
    match move
    case Produce(bytes) => f.(stream := f.stream + bytes)
    case Poll =>
      f.(got := f.got + ReadOf(f.stream, max, f.offset), offset := |f.stream|,
         lost := f.lost || Lossy(f.stream, max, f.offset))
  }

  function Run(f: Follower, max: nat, moves: seq<Move>): Follower
    decreases |moves|
  {
    if moves == [] then f else Run(Next(f, max, moves[0]), max, moves[1..])
  }

  /** Everything the moves of a run push. */
  function Pushed(moves: seq<Move>): seq<Byte> {
    if moves == [] then [] else (if moves[0].Produce? then moves[0].bytes else []) + Pushed(moves[1..])
  }

  /** Chained lossless reads reassemble the stream from the start offset, without gap or overlap. */
  lemma {:induction false} FollowerReassembles(f: Follower, max: nat, moves: seq<Move>)
    requires f.start <= f.offset <= |f.stream|
    requires !f.lost ==> f.got == f.stream[f.start..f.offset]
    ensures var z := Run(f, max, moves);
            && z.stream == f.stream + Pushed(moves) && z.start == f.start && z.start <= z.offset <= |z.stream|
            && (!z.lost ==> z.got == z.stream[z.start..z.offset])
    decreases |moves|
  {
    if moves != [] {
      var n := Next(f, max, moves[0]);
      if !n.lost {
        if moves[0].Poll? {
          assert n.got == f.stream[f.start..f.offset] + f.stream[f.offset..];
        } else {
          assert n.stream[f.start..f.offset] == f.stream[f.start..f.offset];
        }
      }
      hide ReadOf;
      hide Lossy;
      assert f.stream + Pushed(moves) == n.stream + Pushed(moves[1..]);
      FollowerReassembles(n, max, moves[1..]);
    }
  }

  /** A poll leaves nothing of the stream behind. */
  lemma PollCatchesUp(f: Follower, max: nat)
    ensures Next(f, max, Poll).offset == |f.stream| && Next(f, max, Poll).stream == f.stream
  {
  }

  /**
   What any read yields: the suffix of the stream of exactly as many bytes as lie
   behind its offset, but no more than the cap and the whole stream, whether it
   is lossy or not and wherever the offset is.
   */
  lemma ReadYields(stream: seq<Byte>, max: nat, from: int)
    ensures var r := ReadOf(stream, max, from);
            && |r| <= |stream| && r == stream[|stream| - |r|..]
            && |r| <= max && (from >= 0 && from <= |stream| ==> |r| <= |stream| - from) && (from > |stream| ==> r == [])
            && (|r| < max && |r| < |stream| ==> from > |stream| || |stream| - |r| == from)
            && (Lossy(stream, max, from) ==> |r| == max || r == stream)
  {
  }

  /** A read loses bytes exactly when more than the cap arrived since its offset. */
  lemma LossyIffBehind(stream: seq<Byte>, max: nat, from: nat)
    requires from <= |stream|
    ensures Lossy(stream, max, from) <==> |stream| - from > max
    ensures ReadOf(stream, max, from) == stream[from..] <==> !Lossy(stream, max, from)
  {
    if Lossy(stream, max, from) {
      assert |ReadOf(stream, max, from)| == max;
    }
  }
}
