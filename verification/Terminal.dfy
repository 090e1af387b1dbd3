/** The PTY bootstrap filter (packages/subprocess-ssh/src/terminal.ts): nothing before the marker gets through. */
module Terminal {
  import opened Wrappers
  import opened Search
  import opened Base64

  /** The bytes after the first marker, or nothing while it has not occurred. */
  function AfterMarker(stream: seq<Byte>, marker: seq<Byte>): seq<Byte> {
    var at := IndexOf(stream, marker);
    if at.None? then [] else stream[at.value + |marker|..]
  }

  class BootstrapOutputFilter {
    const marker: seq<Byte>
    var pending: seq<Byte>
    var published: bool
    /** Bytes written downstream. */
    var output: seq<Byte>
    /** The whole stream pushed so far. */
    ghost var stream: seq<Byte>

    ghost predicate Valid()
      reads this
    {
      marker != [] && Filtering(stream, marker, pending, published, output)
    }

    constructor (marker: seq<Byte>)
      requires marker != []
      ensures Valid() && this.marker == marker && stream == []
    {
      this.marker, pending, published, output, stream := marker, [], false, [], [];
    }

    /** However the stream is cut, the output is exactly what follows the first marker in all of it. */
    method Push(data: seq<Byte>)
      requires Valid()
      modifies this
      ensures Valid() && stream == old(stream) + data
      ensures output == AfterMarker(stream, marker)
    {
      hide AfterMarker;
      hide IndexOf;
      stream := stream + data;
      if published {
        StaysPublished(old(stream), marker, pending, output, data);
        output := output + data;
        return;
      }
      var combined := pending + data;
      Scan(old(stream), marker, pending, output, data);
      var markerOffset := IndexOf(combined, marker);
      if markerOffset.None? {
        pending := combined[|combined| - Retained(combined, marker)..];
        return;
      }
      published, pending := true, [];
      output := output + combined[markerOffset.value + |marker|..];
    }
  }

  /** The filter's state after `stream`: before the marker only a short suffix is held back. */
  ghost predicate Filtering(stream: seq<Byte>, marker: seq<Byte>, pending: seq<Byte>, published: bool, output: seq<Byte>) {
    && output == AfterMarker(stream, marker)
    && (published <==> IndexOf(stream, marker).Some?)
    && (if published then pending == []
        else |pending| < |marker| && |pending| <= |stream| && pending == stream[|stream| - |pending|..]
             && (|pending| < |marker| - 1 ==> pending == stream))
  }

  function Retained(combined: seq<Byte>, marker: seq<Byte>): (n: nat)
    requires marker != []
    ensures n <= |combined|
  {
    if |combined| < |marker| - 1 then |combined| else |marker| - 1
  }

  lemma StaysPublished(stream: seq<Byte>, marker: seq<Byte>, pending: seq<Byte>, output: seq<Byte>, data: seq<Byte>)
    requires Filtering(stream, marker, pending, true, output)
    ensures Filtering(stream + data, marker, pending, true, output + data)
  {
    LaterBytes(stream, data, marker);
  }

  /** What a scan of `combined` leaves is the state after `whole`: a held suffix, or everything behind the marker. */
  ghost predicate Scanned(whole: seq<Byte>, combined: seq<Byte>, marker: seq<Byte>, output: seq<Byte>)
    requires marker != []
  {
    var at := IndexOf(combined, marker);
    if at.None? then Filtering(whole, marker, combined[|combined| - Retained(combined, marker)..], false, output)
    else Filtering(whole, marker, [], true, output + combined[at.value + |marker|..])
  }

  /** One scan of the held suffix and the new bytes decides for the whole stream. */
  lemma Scan(stream: seq<Byte>, marker: seq<Byte>, pending: seq<Byte>, output: seq<Byte>, data: seq<Byte>)
    requires marker != [] && Filtering(stream, marker, pending, false, output)
    ensures Scanned(stream + data, pending + data, marker, output)
  {
    var shift := |stream| - |pending|;
    HeldBack(stream, marker, pending, output);
    hide *;
    Align(stream, shift, data, marker);
    SuffixMore(stream, data, shift);
    ScanAligned(stream + data, pending + data, marker, shift);
  }

  /** What the state before the marker says of the stream. */
  lemma HeldBack(stream: seq<Byte>, marker: seq<Byte>, pending: seq<Byte>, output: seq<Byte>)
    requires marker != [] && Filtering(stream, marker, pending, false, output)
    ensures output == [] && IndexOf(stream, marker).None? && |pending| <= |stream| && pending == stream[|stream| - |pending|..]
    ensures |stream| == |pending| || |pending| >= |marker| - 1
  {
  }

  lemma ScanAligned(whole: seq<Byte>, combined: seq<Byte>, marker: seq<Byte>, shift: nat)
    requires marker != [] && Aligned(whole, combined, marker, shift) && (shift == 0 || |combined| >= |marker| - 1)
    ensures Scanned(whole, combined, marker, [])
  {
    hide Aligned;
    hide Filtering;
    if IndexOf(combined, marker).None? {
      ScanMisses(whole, combined, marker, shift);
    } else {
      ScanHits(whole, combined, marker, shift);
      var after := combined[IndexOf(combined, marker).value + |marker|..];
      assert [] + after == after;
    }
  }

  lemma SuffixMore(s: seq<Byte>, t: seq<Byte>, shift: nat)
    requires shift <= |s|
    ensures (s + t)[shift..] == s[shift..] + t
  {
  }

  /** The marker occurs in the whole exactly where it occurs in the part from `shift` on. */
  ghost predicate Aligned(whole: seq<Byte>, combined: seq<Byte>, marker: seq<Byte>, shift: nat) {
    && shift <= |whole| && combined == whole[shift..]
    && forall j :: OccursAt(whole, marker, j) <==> OccursFrom(combined, marker, j, shift)
  }

  predicate OccursFrom(combined: seq<Byte>, marker: seq<Byte>, j: int, shift: nat) {
    j >= shift && OccursAt(combined, marker, j - shift)
  }

  lemma ScanMisses(whole: seq<Byte>, combined: seq<Byte>, marker: seq<Byte>, shift: nat)
    requires marker != [] && Aligned(whole, combined, marker, shift) && IndexOf(combined, marker).None?
    requires shift == 0 || |combined| >= |marker| - 1
    ensures Filtering(whole, marker, combined[|combined| - Retained(combined, marker)..], false, [])
  {
    var n := Retained(combined, marker);
    assert whole[shift..][|combined| - n..] == whole[|whole| - n..];
    forall j ensures !OccursAt(whole, marker, j) {
      assert !OccursFrom(combined, marker, j, shift);
    }
  }

  lemma ScanHits(whole: seq<Byte>, combined: seq<Byte>, marker: seq<Byte>, shift: nat)
    requires Aligned(whole, combined, marker, shift) && IndexOf(combined, marker).Some?
    ensures Filtering(whole, marker, [], true, combined[IndexOf(combined, marker).value + |marker|..])
  {
    var i := IndexOf(combined, marker).value;
    assert OccursFrom(combined, marker, i + shift, shift);
    forall j | 0 <= j < i + shift ensures !OccursAt(whole, marker, j) {
      assert !OccursFrom(combined, marker, j, shift);
    }
    IndexOfIs(whole, marker, i + shift);
    assert whole[i + shift + |marker|..] == whole[shift..][i + |marker|..];
  }

  /** Once found, the first occurrence stays the first. */
  lemma LaterBytes(stream: seq<Byte>, data: seq<Byte>, marker: seq<Byte>)
    requires IndexOf(stream, marker).Some?
    ensures IndexOf(stream + data, marker) == IndexOf(stream, marker)
    ensures AfterMarker(stream + data, marker) == AfterMarker(stream, marker) + data
  {
    var i := IndexOf(stream, marker).value;
    SameWindow(stream, data, marker, i);
    forall j | 0 <= j < i ensures !OccursAt(stream + data, marker, j) {
      SameWindow(stream, data, marker, j);
    }
    IndexOfIs(stream + data, marker, i);
  }

  lemma SameWindow(stream: seq<Byte>, data: seq<Byte>, marker: seq<Byte>, j: nat)
    requires j + |marker| <= |stream|
    ensures OccursAt(stream + data, marker, j) <==> OccursAt(stream, marker, j)
  {
    assert (stream + data)[j..j + |marker|] == stream[j..j + |marker|];
  }

  lemma SliceOfSuffix(s: seq<Byte>, shift: nat, a: nat, b: nat)
    requires shift <= a <= b <= |s|
    ensures s[shift..][a - shift..b - shift] == s[a..b]
  {
  }

  /** With no marker so far, a suffix one byte shorter than the marker is all that later occurrences can reach into. */
  lemma Align(stream: seq<Byte>, shift: nat, data: seq<Byte>, marker: seq<Byte>)
    requires IndexOf(stream, marker).None? && shift <= |stream|
    requires shift == 0 || |stream| - shift >= |marker| - 1
    ensures Aligned(stream + data, stream[shift..] + data, marker, shift)
  {
    SuffixMore(stream, data, shift);
    forall j ensures OccursAt(stream + data, marker, j) <==> OccursFrom(stream[shift..] + data, marker, j, shift) {
      WindowSuffices(stream, shift, data, marker, j);
    }
  }

  lemma WindowSuffices(stream: seq<Byte>, shift: nat, data: seq<Byte>, marker: seq<Byte>, j: int)
    requires !OccursAt(stream, marker, j) && shift <= |stream|
    requires shift == 0 || |stream| - shift >= |marker| - 1
    ensures OccursAt(stream + data, marker, j) <==> OccursFrom(stream[shift..] + data, marker, j, shift)
  {
    SuffixMore(stream, data, shift);
    var whole := stream + data;
    if 0 <= j && j + |marker| <= |stream| { SameWindow(stream, data, marker, j); }
    if shift <= j && j + |marker| <= |whole| { SliceOfSuffix(whole, shift, j, j + |marker|); }
  }
}
