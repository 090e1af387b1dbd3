/**
 Cutting a stream into lines at a separator, and why it does not matter how the
 stream is cut into chunks. Shared by the JSON line decoder and the base64 frame decoder.
 */
module Lines {
  /** First position of `x` in `s`, or |s|. */
  function Find<T(==)>(s: seq<T>, x: T): (i: nat)
    ensures i <= |s| && (forall j | 0 <= j < i :: s[j] != x) && (i < |s| ==> s[i] == x)
  {
    if s == [] then 0 else if s[0] == x then 0 else 1 + Find(s[1..], x)
  }

  /** Complete lines, without their separators, and the unterminated rest. */
  datatype Cut<T> = Cut(lines: seq<seq<T>>, rest: seq<T>)

  function Split<T(==)>(s: seq<T>, x: T): (c: Cut<T>)
    ensures x !in c.rest && |c.rest| <= |s|
    decreases |s|
  {
    var i := Find(s, x);
    if i == |s| then Cut([], s)
    else
      var c := Split(s[i + 1..], x);
      Cut([s[..i]] + c.lines, c.rest)
  }

  lemma FindIs<T>(s: seq<T>, x: T, i: nat)
    requires i <= |s| && x !in s[..i] && (i < |s| ==> s[i] == x)
    ensures Find(s, x) == i
  {
    forall j | 0 <= j < i ensures s[j] != x {
      assert s[j] == s[..i][j];
    }
  }

  lemma SplitStep<T>(s: seq<T>, x: T, i: nat)
    requires i < |s| && x !in s[..i] && s[i] == x
    ensures Split(s, x) == Cut([s[..i]] + Split(s[i + 1..], x).lines, Split(s[i + 1..], x).rest)
  {
    FindIs(s, x, i);
  }

  lemma SplitNone<T>(s: seq<T>, x: T)
    requires x !in s
    ensures Split(s, x) == Cut([], s)
  {
    FindIs(s, x, |s|);
  }

  /** Splitting a first piece and then its rest with the next piece is splitting both at once. */
  lemma {:induction false} SplitAppend<T>(a: seq<T>, b: seq<T>, x: T)
    ensures Split(a + b, x) == Cut(Split(a, x).lines + Split(Split(a, x).rest + b, x).lines, Split(Split(a, x).rest + b, x).rest)
    decreases |a|
  {
    if x !in a {
      SplitNone(a, x);
      assert [] + Split(a + b, x).lines == Split(a + b, x).lines;
    } else {
      var i := Find(a, x);
      SplitAppend(a[i + 1..], b, x);
      SplitAppendStep(a, b, x, i, Split(a[i + 1..], x), Split(Split(a[i + 1..], x).rest + b, x));
    }
  }

  lemma SplitAppendStep<T>(a: seq<T>, b: seq<T>, x: T, i: nat, c: Cut<T>, d: Cut<T>)
    requires i < |a| && x !in a[..i] && a[i] == x
    requires c == Split(a[i + 1..], x) && d == Split(c.rest + b, x)
    requires Split(a[i + 1..] + b, x) == Cut(c.lines + d.lines, d.rest)
    ensures Split(a, x).rest == c.rest
    ensures Split(a + b, x) == Cut(Split(a, x).lines + d.lines, d.rest)
  {
    hide Split;
    hide Find;
    SplitStep(a, x, i);
    assert (a + b)[..i] == a[..i] && (a + b)[i + 1..] == a[i + 1..] + b;
    SplitStep(a + b, x, i);
    LinesAssociate(a[..i], c.lines, d.lines);
  }

  lemma LinesAssociate<T>(head: seq<T>, c: seq<seq<T>>, d: seq<seq<T>>)
    ensures [head] + (c + d) == ([head] + c) + d
  {
  }

  function Concat<T>(pieces: seq<seq<T>>): seq<T> {
    if pieces == [] then [] else pieces[0] + Concat(pieces[1..])
  }

  /** Each line followed by the separator. */
  function Terminated<T>(lines: seq<seq<T>>, x: T): seq<T> {
    if lines == [] then [] else lines[0] + [x] + Terminated(lines[1..], x)
  }

  lemma TerminatedParts<T>(lines: seq<seq<T>>, x: T)
    requires lines != []
    ensures var s, n := Terminated(lines, x), |lines[0]|;
            n < |s| && s[..n] == lines[0] && s[n] == x && s[n + 1..] == Terminated(lines[1..], x)
  {
  }

  lemma {:induction false} SplitTerminated<T>(lines: seq<seq<T>>, x: T)
    requires forall l <- lines :: x !in l
    ensures Split(Terminated(lines, x), x) == Cut(lines, [])
    decreases |lines|
  {
    if lines == [] {
      SplitNone<T>([], x);
    } else {
      TerminatedParts(lines, x);
      hide *;
      SplitStep(Terminated(lines, x), x, |lines[0]|);
      SplitTerminated(lines[1..], x);
      assert [lines[0]] + lines[1..] == lines;
    }
  }

  lemma {:induction false} ConcatAppend<T>(a: seq<seq<T>>, b: seq<seq<T>>)
    ensures Concat(a + b) == Concat(a) + Concat(b)
    decreases |a|
  {
    if a == [] {
      assert a + b == b;
    } else {
      assert (a + b)[1..] == a[1..] + b;
      ConcatAppend(a[1..], b);
    }
  }
}
