/**
 Text helpers of the remote file system (packages/fs-ssh/src/text.ts) and the
 literal edit built from them (fs-ssh.ts): LF basis, CRLF storage, literal
 counting and replacement, and the NUL probe.
 */
module Text {
  import opened Wrappers
  import opened Search
  import opened Base64

  // ---------------------------------------------------------------- line endings

  function NormalizeLf(t: string): string {
    if |t| >= 2 && t[0] == '\r' && t[1] == '\n' then ['\n'] + NormalizeLf(t[2..])
    else if t == "" then "" else [t[0]] + NormalizeLf(t[1..])
  }

  function ToCrlf(t: string): string {
    if t == "" then "" else (if t[0] == '\n' then "\r\n" else [t[0]]) + ToCrlf(t[1..])
  }

  predicate HasCrlf(t: string) {
    exists i | 0 <= i < |t| - 1 :: t[i] == '\r' && t[i + 1] == '\n'
  }

  predicate EveryLfFollowsCr(t: string) {
    forall i | 0 <= i < |t| && t[i] == '\n' :: i > 0 && t[i - 1] == '\r'
  }

  /** Storage form and back is the identity on every text. */
  lemma {:induction false} NormalizeAfterCrlf(t: string)
    ensures NormalizeLf(ToCrlf(t)) == t
    decreases |t|
  {
    if t != "" {
      NormalizeAfterCrlf(t[1..]);
      var rest := ToCrlf(t[1..]);
      if t[0] == '\n' {
        assert ("\r\n" + rest)[2..] == rest;
      } else {
        assert ([t[0]] + rest)[1..] == rest;
        if rest != "" { CrlfNeverStartsWithLf(t[1..]); }
      }
    }
  }

  lemma CrlfNeverStartsWithLf(t: string)
    requires t != ""
    ensures ToCrlf(t) != "" && ToCrlf(t)[0] != '\n'
  {
  }

  /** The LF basis and back is the identity exactly when every LF is already preceded by a CR. */
  lemma {:induction false} CrlfAfterNormalize(t: string)
    ensures ToCrlf(NormalizeLf(t)) == t <==> EveryLfFollowsCr(t)
    decreases |t|
  {
    if |t| >= 2 && t[0] == '\r' && t[1] == '\n' {
      CrlfAfterNormalize(t[2..]);
      var n := NormalizeLf(t[2..]);
      assert (['\n'] + n)[1..] == n;
      assert t == "\r\n" + t[2..];
      CrlfDrop2(t);
      assert ToCrlf(NormalizeLf(t)) == "\r\n" + ToCrlf(n);
      if ToCrlf(NormalizeLf(t)) == t { assert ToCrlf(n) == ("\r\n" + ToCrlf(n))[2..] == t[2..]; }
    } else if t != "" {
      CrlfAfterNormalize(t[1..]);
      var n := NormalizeLf(t[1..]);
      assert ([t[0]] + n)[1..] == n;
      assert t == [t[0]] + t[1..];
      if t[0] == '\n' {
        assert ToCrlf(NormalizeLf(t))[0] == '\r';
        assert !EveryLfFollowsCr(t);
      } else {
        CrlfDrop1(t);
        assert ToCrlf(NormalizeLf(t)) == [t[0]] + ToCrlf(n);
        if ToCrlf(NormalizeLf(t)) == t { assert ToCrlf(n) == ([t[0]] + ToCrlf(n))[1..] == t[1..]; }
      }
    }
  }

  lemma CrlfDrop2(t: string)
    requires |t| >= 2 && t[0] == '\r' && t[1] == '\n'
    ensures EveryLfFollowsCr(t) <==> EveryLfFollowsCr(t[2..])
  {
    var u := t[2..];
    if EveryLfFollowsCr(t) {
      forall i | 0 <= i < |u| && u[i] == '\n' ensures i > 0 && u[i - 1] == '\r' { assert t[i + 2] == '\n'; }
    }
    if EveryLfFollowsCr(u) {
      forall i | 0 <= i < |t| && t[i] == '\n' ensures i > 0 && t[i - 1] == '\r' {
        if i >= 2 { assert u[i - 2] == '\n'; }
      }
    }
  }

  lemma CrlfDrop1(t: string)
    requires t != "" && t[0] != '\n' && !(|t| >= 2 && t[0] == '\r' && t[1] == '\n')
    ensures EveryLfFollowsCr(t) <==> EveryLfFollowsCr(t[1..])
  {
    var u := t[1..];
    if EveryLfFollowsCr(t) {
      forall i | 0 <= i < |u| && u[i] == '\n' ensures i > 0 && u[i - 1] == '\r' { assert t[i + 1] == '\n'; }
    }
    if EveryLfFollowsCr(u) {
      forall i | 0 <= i < |t| && t[i] == '\n' ensures i > 0 && t[i - 1] == '\r' { assert u[i - 1] == '\n'; }
    }
  }

  // ---------------------------------------------------------------- literal replacement

  function Count(h: string, n: string): nat
    requires n != ""
    decreases |h|
  {
    var at := IndexOf(h, n);
    if at.None? then 0 else 1 + Count(h[at.value + |n|..], n)
  }

  /** Count by repeated search from behind the last match. */
  method CountLiteral(h: string, n: string) returns (count: nat)
    requires n != ""
    ensures count == Count(h, n)
  {
    count := 0;
    var from := 0;
    assert h[0..] == h;
    while true
      invariant 0 <= from <= |h| && Count(h, n) == count + Count(h[from..], n)
      decreases |h| - from
    {
      var at := IndexOf(h[from..], n);
      if at.None? { return; }
      assert h[from..][at.value + |n|..] == h[from + at.value + |n|..];
      count := count + 1;
      from := from + at.value + |n|;
    }
  }

  function SplitOn(h: string, n: string): (parts: seq<string>)
    requires n != ""
    ensures parts != []
    decreases |h|
  {
    var at := IndexOf(h, n);
    if at.None? then [h] else [h[..at.value]] + SplitOn(h[at.value + |n|..], n)
  }

  function JoinWith(parts: seq<string>, sep: string): string {
    if parts == [] then "" else if |parts| == 1 then parts[0] else parts[0] + sep + JoinWith(parts[1..], sep)
  }

  function ReplaceLiteral(h: string, n: string, r: string, all: bool): string
    requires n != ""
  {
    if all then JoinWith(SplitOn(h, n), r)
    else
      var at := IndexOf(h, n);
      if at.None? then h else h[..at.value] + r + h[at.value + |n|..]
  }

  lemma JoinMore(head: string, parts: seq<string>, sep: string)
    requires parts != []
    ensures JoinWith([head] + parts, sep) == head + sep + JoinWith(parts, sep)
  {
    assert ([head] + parts)[1..] == parts;
  }

  lemma OneMoreTimes(n: int, d: int)
    ensures (1 + n) * d == d + n * d
  {
  }

  /** One match: what precedes it is kept, it is replaced, and the rest is replaced on its own. */
  lemma ReplaceAllStep(h: string, n: string, r: string)
    requires n != "" && IndexOf(h, n).Some?
    ensures var i := IndexOf(h, n).value;
            && i + |n| <= |h| && Count(h, n) == 1 + Count(h[i + |n|..], n)
            && ReplaceLiteral(h, n, r, true) == h[..i] + r + ReplaceLiteral(h[i + |n|..], n, r, true)
  {
    hide IndexOf;
    var i := IndexOf(h, n).value;
    JoinMore(h[..i], SplitOn(h[i + |n|..], n), r);
  }

  lemma ReplaceAllNone(h: string, n: string, r: string)
    requires n != "" && IndexOf(h, n).None?
    ensures Count(h, n) == 0 && ReplaceLiteral(h, n, r, true) == h == ReplaceLiteral(h, n, r, false)
  {
  }

  /** Replacing every occurrence changes the length by the count times the difference. */
  lemma {:induction false} ReplaceAllLength(h: string, n: string, r: string)
    requires n != ""
    ensures |ReplaceLiteral(h, n, r, true)| == |h| + Count(h, n) * (|r| - |n|)
    decreases |h|
  {
    hide IndexOf;
    hide Count;
    hide ReplaceLiteral;
    var at := IndexOf(h, n);
    if at.None? {
      ReplaceAllNone(h, n, r);
    } else {
      var head, rest := h[..at.value], h[at.value + |n|..];
      ReplaceAllStep(h, n, r);
      ReplaceAllLength(rest, n, r);
      OneMoreTimes(Count(rest, n), |r| - |n|);
    }
  }

  /** With exactly one occurrence, replacing all and replacing the first are the same; with none, nothing changes. */
  lemma ReplaceAllIsFirst(h: string, n: string, r: string)
    requires n != "" && Count(h, n) <= 1
    ensures ReplaceLiteral(h, n, r, true) == ReplaceLiteral(h, n, r, false)
    ensures Count(h, n) == 0 ==> ReplaceLiteral(h, n, r, true) == h
  {
    var at := IndexOf(h, n);
    if at.None? {
      ReplaceAllNone(h, n, r);
    } else {
      var rest := h[at.value + |n|..];
      ReplaceAllStep(h, n, r);
      assert IndexOf(rest, n).None?;
      ReplaceAllNone(rest, n, r);
    }
  }

  /** Replacing a text by itself changes nothing. */
  lemma {:induction false} ReplaceBySelf(h: string, n: string, all: bool)
    requires n != ""
    ensures ReplaceLiteral(h, n, n, all) == h
    decreases |h|
  {
    var at := IndexOf(h, n);
    if at.Some? {
      var i := at.value;
      assert h == h[..i] + h[i..i + |n|] + h[i + |n|..];
      if all {
        ReplaceBySelf(h[i + |n|..], n, true);
        JoinMore(h[..i], SplitOn(h[i + |n|..], n), n);
      }
    }
  }

  // ---------------------------------------------------------------- what replacing means

  /** `h` falls into `parts` around the non-overlapping matches of `n`, each match the first one behind the last. */
  ghost predicate Cuts(parts: seq<string>, h: string, n: string)
    requires n != ""
    decreases |parts|
  {
    parts != [] &&
    if |parts| == 1 then h == parts[0] && forall i :: !OccursAt(h, n, i)
    else
      && |parts[0]| + |n| <= |h| && h[..|parts[0]|] == parts[0]
      && OccursAt(h, n, |parts[0]|) && (forall i | 0 <= i < |parts[0]| :: !OccursAt(h, n, i))
      && Cuts(parts[1..], h[|parts[0]| + |n|..], n)
  }

  /** Every text falls into exactly one such list of pieces. */
  lemma {:induction false} CutsAreUnique(p: seq<string>, q: seq<string>, h: string, n: string)
    requires n != "" && Cuts(p, h, n) && Cuts(q, h, n)
    ensures p == q
    decreases |p|
  {
    if |p| > 1 && |q| > 1 {
      assert |p[0]| == |q[0]|;
      CutsAreUnique(p[1..], q[1..], h[|p[0]| + |n|..], n);
      assert p == [p[0]] + p[1..] && q == [q[0]] + q[1..];
    }
  }

  /** The pieces hold no match and join to the text around the matches. */
  lemma {:induction false} CutsJoin(parts: seq<string>, h: string, n: string)
    requires n != "" && Cuts(parts, h, n)
    ensures JoinWith(parts, n) == h
    ensures forall p <- parts :: forall i :: !OccursAt(p, n, i)
    decreases |parts|
  {
    if |parts| > 1 {
      var k := |parts[0]|;
      CutsJoin(parts[1..], h[k + |n|..], n);
      assert h == h[..k] + h[k..k + |n|] + h[k + |n|..];
      forall i ensures !OccursAt(parts[0], n, i) {
        if OccursAt(parts[0], n, i) {
          assert h[..k][i..i + |n|] == h[i..i + |n|];
          assert OccursAt(h, n, i);
        }
      }
      assert forall p <- parts :: p == parts[0] || p in parts[1..];
    }
  }

  /** Splitting yields those pieces, one more than there are matches. */
  lemma {:induction false} SplitCuts(h: string, n: string)
    requires n != ""
    ensures Cuts(SplitOn(h, n), h, n) && |SplitOn(h, n)| == Count(h, n) + 1
    decreases |h|
  {
    var at := IndexOf(h, n);
    if at.Some? { SplitCuts(h[at.value + |n|..], n); }
  }

  /** Replacing every match, or the only one, joins the pieces with the replacement instead. */
  lemma ReplaceJoins(h: string, n: string, r: string, all: bool)
    requires n != "" && (all || Count(h, n) <= 1)
    ensures ReplaceLiteral(h, n, r, all) == JoinWith(SplitOn(h, n), r)
  {
    if !all { ReplaceAllIsFirst(h, n, r); }
  }

  /** Without its first character, where no match starts, a text falls into the same pieces but for that character. */
  lemma CutsLater(parts: seq<string>, h: string, n: string)
    requires n != "" && Cuts(parts, h, n) && parts[0] != ""
    ensures h != "" && parts[0] == [h[0]] + parts[0][1..] && Cuts([parts[0][1..]] + parts[1..], h[1..], n)
  {
    forall i | 0 < i ensures OccursAt(h, n, i) <==> OccursAt(h[1..], n, i - 1) { OccursShift(h, n, i); }
    var tail := [parts[0][1..]] + parts[1..];
    assert tail[1..] == parts[1..];
    if |parts| == 1 {
      forall i ensures !OccursAt(h[1..], n, i) {
        if i >= 0 { assert OccursAt(h, n, i + 1) <==> OccursAt(h[1..], n, i); }
      }
    } else {
      assert h[1..][..|tail[0]|] == h[..|parts[0]|][1..] == tail[0];
      assert h[1..][|tail[0]| + |n|..] == h[|parts[0]| + |n|..];
      forall i | 0 <= i < |tail[0]| ensures !OccursAt(h[1..], n, i) { assert !OccursAt(h, n, i + 1); }
    }
  }

  lemma LongerPiece(parts: seq<string>, sep: string)
    requires parts != [] && parts[0] != ""
    ensures JoinWith(parts, sep) == [parts[0][0]] + JoinWith([parts[0][1..]] + parts[1..], sep)
  {
    var tail := [parts[0][1..]] + parts[1..];
    assert tail[1..] == parts[1..];
    if |parts| > 1 { assert parts[0] + sep + JoinWith(parts[1..], sep) == [parts[0][0]] + (parts[0][1..] + sep + JoinWith(parts[1..], sep)); }
  }

  lemma CrlfFirst(t: string)
    requires |t| >= 2
    ensures OccursAt(t, "\r\n", 0) <==> t[0] == '\r' && t[1] == '\n'
  {
    assert t[0..0 + 2] == [t[0], t[1]];
  }

  lemma HasCrlfIff(t: string)
    ensures HasCrlf(t) <==> exists i :: OccursAt(t, "\r\n", i)
  {
    forall i | 0 <= i < |t| - 1 ensures OccursAt(t, "\r\n", i) <==> t[i] == '\r' && t[i + 1] == '\n' {
      assert t[i..i + 2] == [t[i], t[i + 1]];
    }
    if i :| OccursAt(t, "\r\n", i) { assert t[i] == '\r' && t[i + 1] == '\n'; }
    if i :| 0 <= i < |t| - 1 && t[i] == '\r' && t[i + 1] == '\n' { assert OccursAt(t, "\r\n", i); }
  }

  lemma LfFirst(t: string)
    requires t != ""
    ensures OccursAt(t, "\n", 0) <==> t[0] == '\n'
  {
    assert t[0..0 + 1] == [t[0]];
  }

  /** LF form is the text with every CRLF replaced by an LF. */
  lemma {:induction false} NormalizeReplaces(t: string, parts: seq<string>)
    requires Cuts(parts, t, "\r\n")
    ensures NormalizeLf(t) == JoinWith(parts, "\n")
    decreases |t|
  {
    if |parts| == 1 {
      HasCrlfIff(t);
      NormalizeWithoutCrlf(t);
    } else if parts[0] == "" {
      CrlfFirst(t);
      NormalizeReplaces(t[2..], parts[1..]);
    } else {
      CrlfFirst(t);
      assert OccursAt(t, "\r\n", |parts[0]|) && !OccursAt(t, "\r\n", 0);
      var tail := [parts[0][1..]] + parts[1..];
      CutsLater(parts, t, "\r\n");
      NormalizeReplaces(t[1..], tail);
      LongerPiece(parts, "\n");
    }
  }

  /** Storage form is the text with every LF replaced by a CRLF. */
  lemma {:induction false} CrlfReplaces(t: string, parts: seq<string>)
    requires Cuts(parts, t, "\n")
    ensures ToCrlf(t) == JoinWith(parts, "\r\n")
    decreases |t|
  {
    if t == "" {
      assert !OccursAt(t, "\n", |parts[0]|);
    } else {
      LfFirst(t);
      if parts[0] == "" {
        CrlfReplaces(t[1..], parts[1..]);
      } else {
        assert !OccursAt(t, "\n", 0);
        CutsLater(parts, t, "\n");
        CrlfReplaces(t[1..], [parts[0][1..]] + parts[1..]);
        LongerPiece(parts, "\r\n");
      }
    }
  }

  // ---------------------------------------------------------------- one edit

  datatype EditOutcome = Edited(before: string, after: string, stored: string) | NotFound | Ambiguous(matches: nat) | EmptyOld

  /** The literal edit of a stored text: match and replace on the LF basis, store back with CRLF if any was there. */
  function LiteralEdit(raw: string, old_: string, new_: string, all: bool): EditOutcome {
    if old_ == "" then EmptyOld
    else
      var before := NormalizeLf(raw);
      var matches := Count(before, old_);
      if matches == 0 then NotFound
      else if matches > 1 && !all then Ambiguous(matches)
      else
        var after := ReplaceLiteral(before, old_, new_, all);
        Edited(before, after, if HasCrlf(raw) then ToCrlf(after) else after)
  }

  /**
   `stored` is what an edit of `raw` should leave: the LF form of the file, cut
   around the matches of `old_` (exactly one unless all are meant), with `new_`
   for each match, and CRLF line endings exactly if the file had any.
   */
  ghost predicate Rewrites(raw: string, old_: string, new_: string, all: bool, stored: string) {
    old_ != "" &&
    exists parts: seq<string> :: Cuts(parts, NormalizeLf(raw), old_) && RewrittenWith(parts, raw, new_, all, stored)
  }

  ghost predicate RewrittenWith(parts: seq<string>, raw: string, new_: string, all: bool, stored: string) {
    && |parts| >= 2 && (all || |parts| == 2)
    && stored == if HasCrlf(raw) then ToCrlf(JoinWith(parts, new_)) else JoinWith(parts, new_)
  }

  /**
   What a literal edit does, in terms of the pieces the LF form of the file
   falls into around the matches: there is one piece more than matches, an edit
   is made exactly when there is one match, or some with `all`, and it joins the
   same pieces with the replacement.
   */
  lemma LiteralEditIs(raw: string, old_: string, new_: string, all: bool, parts: seq<string>)
    requires old_ != "" && Cuts(parts, NormalizeLf(raw), old_)
    ensures var e := LiteralEdit(raw, old_, new_, all);
            && (e.NotFound? <==> |parts| == 1)
            && (e.Ambiguous? <==> |parts| > 2 && !all) && (e.Ambiguous? ==> e.matches == |parts| - 1)
            && (e.Edited? <==> |parts| == 2 || (|parts| > 2 && all))
            && (e.Edited? ==>
                  && e.before == NormalizeLf(raw) == JoinWith(parts, old_) && e.after == JoinWith(parts, new_)
                  && (forall p <- parts :: forall i :: !OccursAt(p, old_, i))
                  && e.stored == if HasCrlf(raw) then ToCrlf(e.after) else e.after)
  {
    var before := NormalizeLf(raw);
    SplitCuts(before, old_);
    CutsAreUnique(parts, SplitOn(before, old_), before, old_);
    CutsJoin(parts, before, old_);
    if all || Count(before, old_) <= 1 { ReplaceJoins(before, old_, new_, all); }
  }

  /** An edit is made, and stores `stored`, exactly when that is what it should leave. */
  lemma EditRewrites(raw: string, old_: string, new_: string, all: bool, stored: string)
    ensures var e := LiteralEdit(raw, old_, new_, all);
            && (e.EmptyOld? <==> old_ == "")
            && (e.Edited? && e.stored == stored <==> Rewrites(raw, old_, new_, all, stored))
  {
    if old_ != "" {
      var before := NormalizeLf(raw);
      var parts := SplitOn(before, old_);
      SplitCuts(before, old_);
      LiteralEditIs(raw, old_, new_, all, parts);
      hide LiteralEdit;
      hide Cuts;
      if Rewrites(raw, old_, new_, all, stored) {
        var q :| Cuts(q, before, old_) && RewrittenWith(q, raw, new_, all, stored);
        CutsAreUnique(q, parts, before, old_);
      }
      if LiteralEdit(raw, old_, new_, all).Edited? && LiteralEdit(raw, old_, new_, all).stored == stored {
        assert RewrittenWith(parts, raw, new_, all, stored);
      }
    }
  }

  /** A file with some CRLF keeps its bytes under an edit that changes nothing exactly when all its LFs were CRLF. */
  lemma EditingNothingKeepsBytes(raw: string, s: string, all: bool)
    requires LiteralEdit(raw, s, s, all).Edited?
    ensures LiteralEdit(raw, s, s, all).stored == raw <==> !HasCrlf(raw) || EveryLfFollowsCr(raw)
  {
    ReplaceBySelf(NormalizeLf(raw), s, all);
    CrlfAfterNormalize(raw);
    if !HasCrlf(raw) { NormalizeWithoutCrlf(raw); }
  }

  lemma {:induction false} NormalizeWithoutCrlf(t: string)
    requires !HasCrlf(t)
    ensures NormalizeLf(t) == t
    decreases |t|
  {
    if t != "" {
      assert |t| >= 2 ==> !(t[0] == '\r' && t[0 + 1] == '\n');
      var u := t[1..];
      forall i | 0 <= i < |u| - 1 ensures !(u[i] == '\r' && u[i + 1] == '\n') {
        assert u[i] == t[i + 1] && u[i + 1] == t[i + 1 + 1];
      }
      NormalizeWithoutCrlf(t[1..]);
    }
  }

  /** Normalizing leaves a text alone exactly when it has no CRLF. */
  lemma {:induction false} NormalizeIsIdentityIff(t: string)
    ensures |NormalizeLf(t)| <= |t| && (NormalizeLf(t) == t <==> !HasCrlf(t))
    decreases |t|
  {
    if !HasCrlf(t) {
      NormalizeWithoutCrlf(t);
    } else if t[0] == '\r' && t[1] == '\n' {
      NormalizeIsIdentityIff(t[2..]);
    } else {
      NormalizeIsIdentityIff(t[1..]);
      var i :| 0 <= i < |t| - 1 && t[i] == '\r' && t[i + 1] == '\n';
      assert t[1..][i - 1] == '\r' && t[1..][i - 1 + 1] == '\n';
      assert NormalizeLf(t)[1..] == NormalizeLf(t[1..]);
    }
  }

  /**
   The text reported after an edit is the LF form of what is stored exactly when
   the file had CRLF line endings or the reported text has none.
   */
  lemma ReportedIsNormalized(raw: string, old_: string, new_: string, all: bool)
    requires LiteralEdit(raw, old_, new_, all).Edited?
    ensures var e := LiteralEdit(raw, old_, new_, all);
            NormalizeLf(e.stored) == e.after <==> HasCrlf(raw) || !HasCrlf(e.after)
  {
    var e := LiteralEdit(raw, old_, new_, all);
    NormalizeAfterCrlf(e.after);
    NormalizeIsIdentityIff(e.after);
  }

  /** An edit of an LF file that brings in a CRLF reports a text that is not in LF form. */
  lemma ReportedMayHoldCrlf()
    ensures var e := LiteralEdit("x", "x", "\r\n", false);
            e.Edited? && e.after == "\r\n" && NormalizeLf(e.stored) != e.after
  {
    assert IndexOf("x", "x") == Some(0) && Count("x"[1..], "x") == 0;
    assert NormalizeLf("x") == "x" by { assert NormalizeLf("x"[1..]) == ""; }
    assert !HasCrlf("x");
    assert ReplaceLiteral("x", "x", "\r\n", false) == "\r\n";
    assert HasCrlf("\r\n") by { assert "\r\n"[0] == '\r' && "\r\n"[0 + 1] == '\n'; }
    NormalizeIsIdentityIff("\r\n");
  }

  // ---------------------------------------------------------------- binary probe

  const PROBE_BYTES := 8192

  predicate LooksBinary(stream: seq<Byte>) {
    exists i | 0 <= i < |stream| && i < PROBE_BYTES :: stream[i] == 0
  }

  /** A stream looks binary exactly when a NUL is among its first 8192 bytes. */
  lemma ProbeIsPrefix(stream: seq<Byte>)
    ensures LooksBinary(stream) <==> 0 in if |stream| <= 8192 then stream else stream[..8192]
  {
    if |stream| > 8192 { assert forall i | 0 <= i < 8192 :: stream[..8192][i] == stream[i]; }
  }

  /** Incremental NUL probe over the first 8192 bytes. */
  class BinaryProbe {
    var inspected: nat
    var binary: bool
    ghost var stream: seq<Byte>

    ghost predicate Valid()
      reads this
    {
      && binary == LooksBinary(stream)
      && (!binary ==> inspected == if |stream| < PROBE_BYTES then |stream| else PROBE_BYTES)
    }

    constructor ()
      ensures Valid() && stream == []
    {
      inspected, binary, stream := 0, false, [];
    }

    /** The verdict is that of the whole stream so far, however it was cut. */
    method Push(chunk: seq<Byte>) returns (verdict: bool)
      requires Valid()
      modifies this
      ensures Valid() && stream == old(stream) + chunk && verdict == LooksBinary(stream)
    {
      ghost var before := stream;
      stream := stream + chunk;
      assert LooksBinary(before) ==> LooksBinary(stream) by {
        if LooksBinary(before) {
          var i :| 0 <= i < |before| && i < PROBE_BYTES && before[i] == 0;
          assert stream[i] == 0;
        }
      }
      if binary { return true; }
      if inspected >= PROBE_BYTES {
        assert forall i | 0 <= i < PROBE_BYTES :: stream[i] == before[i];
        return false;
      }
      assert inspected == |before|;
      var n := if |chunk| < PROBE_BYTES - inspected then |chunk| else PROBE_BYTES - inspected;
      for i := 0 to n
        invariant !binary && inspected == |before| && stream == before + chunk
        invariant forall j | 0 <= j < i :: chunk[j] != 0
      {
        if chunk[i] == 0 {
          assert stream[|before| + i] == 0;
          binary := true;
          return true;
        }
      }
      inspected := inspected + n;
      assert forall i | 0 <= i < |stream| && i < PROBE_BYTES ::
        stream[i] == if i < |before| then before[i] else chunk[i - |before|];
      return false;
    }
  }
}
