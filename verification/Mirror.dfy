/**
 The seq-exact mirror of one remote session (packages/remote-proxy/src/mirror.ts,
 events.ts): buffer live events while history is read, replay history, drain
 the buffer, then append each live event; the first event that does not fit
 freezes the mirror for good.
 */
module Mirror {
  import opened Wrappers
  import opened Broker
  import opened Delivery

  datatype Surface = Surface(op: string, sources: Option<seq<int>>)
  datatype Entry = Entry(kind: string, data: string, surface: Option<Surface>)

  /** What the local session library decides: surface-eligible types and valid appends. */
  datatype Library = Library(eligible: string -> bool, valid: Entry -> bool)

  const NO_DATA := "{}"

  /** The local entry for a wire event: missing data becomes an empty object, a missing marker `append`. */
  function Mirrored(lib: Library, e: Event): Entry {
    Entry(e.kind, e.body.data.GetOr(NO_DATA),
          if lib.eligible(e.kind) then Some(Surface(e.body.surfaceOp.GetOr("append"), e.body.sourceSeqs)) else None)
  }

  /** The entry says what the event says, field by field. */
  predicate Depicts(lib: Library, entry: Entry, e: Event) {
    && entry.kind == e.kind
    && (if e.body.data.Some? then entry.data == e.body.data.value else entry.data == "{}")
    && (entry.surface.Some? <==> lib.eligible(e.kind))
    && (entry.surface.Some? ==>
          && (if e.body.surfaceOp.Some? then entry.surface.value.op == e.body.surfaceOp.value else entry.surface.value.op == "append")
          && entry.surface.value.sources == e.body.sourceSeqs)
  }

  /** No other entry depicts an event. */
  lemma DepictedOnce(lib: Library, e: Event, entry: Entry)
    ensures Depicts(lib, entry, e) <==> entry == Mirrored(lib, e)
  {
  }

  function MirroredAll(lib: Library, es: seq<Event>): seq<Entry> {
    seq(|es|, i requires 0 <= i < |es| => Mirrored(lib, es[i]))
  }

  datatype State = State(log: seq<Entry>, buffered: seq<Event>, live: bool, failed: bool)

  /** Append one live event, or freeze: at the wrong seq, or when the append is rejected. */
  function Appended(lib: Library, m: State, e: Event): State {
    if m.failed then m
    else if e.seq_ != |m.log| || !lib.valid(Mirrored(lib, e)) then m.(failed := true)
    else m.(log := m.log + [Mirrored(lib, e)])
  }

  function AppendedAll(lib: Library, m: State, es: seq<Event>): State
    decreases |es|
  {
    if es == [] then m else AppendedAll(lib, Appended(lib, m, es[0]), es[1..])
  }

  function Tapped(lib: Library, m: State, e: Event): State {
    if m.live then Appended(lib, m, e) else m.(buffered := m.buffered + [e])
  }

  function WentLive(lib: Library, m: State): State {
    AppendedAll(lib, m.(live := true), m.buffered)
  }

  /** Replay history into the unpublished session; a diverging or rejected entry aborts the bootstrap. */
  function Replayed(lib: Library, log: seq<Entry>, history: seq<Event>): Option<seq<Entry>>
    decreases |history|
  {
    if history == [] then Some(log)
    else if history[0].seq_ != |log| || !lib.valid(Mirrored(lib, history[0])) then None
    else Replayed(lib, log + [Mirrored(lib, history[0])], history[1..])
  }

  // ---------------------------------------------------------------- the classes

  /** A local session whose `append` is shadowed: only appends inside the mirror's window get through. */
  class GuardedSession {
    const lib: Library
    var log: seq<Entry>
    var inside: bool

    constructor (lib: Library, seed: seq<Entry>)
      ensures this.lib == lib && log == seed && !inside
    {
      this.lib, log, inside := lib, seed, false;
    }

    method Append(entry: Entry) returns (accepted: bool)
      modifies this`log
      ensures accepted <==> inside && lib.valid(entry)
      ensures log == if accepted then old(log) + [entry] else old(log)
    {
      accepted := inside && lib.valid(entry);
      if accepted { log := log + [entry]; }
    }

    /** One append through the window, which is closed again whatever happens. */
    method AppendMirrored(e: Event) returns (accepted: bool)
      modifies this
      ensures accepted <==> lib.valid(Mirrored(lib, e))
      ensures log == if accepted then old(log) + [Mirrored(lib, e)] else old(log)
      ensures !inside
    {
      inside := true;
      accepted := Append(Mirrored(lib, e));
      inside := false;
    }

    /** A write by a local plugin outside the window changes nothing. */
    method AppendLocally(entry: Entry) returns (accepted: bool)
      requires !inside
      modifies this
      ensures !accepted && log == old(log) && !inside
    {
      accepted := Append(entry);
    }
  }

  class SessionMirror {
    const session: GuardedSession
    var buffered: seq<Event>
    var live: bool
    var failed: bool

    ghost predicate Valid()
      reads this, session
    {
      !session.inside
    }

    ghost function AsState(): State
      reads this, session
    {
      State(session.log, buffered, live, failed)
    }

    /** The tap is registered first, so the mirror starts out buffering. */
    constructor (session: GuardedSession)
      requires !session.inside
      ensures Valid() && this.session == session && AsState() == State(session.log, [], false, false)
    {
      this.session, buffered, live, failed := session, [], false, false;
    }

    method AppendEvent(e: Event)
      requires Valid()
      modifies this, session
      ensures Valid() && AsState() == Appended(session.lib, old(AsState()), e)
    {
      if failed { return; }
      if e.seq_ != |session.log| {
        failed := true;
        return;
      }
      var accepted := session.AppendMirrored(e);
      if !accepted { failed := true; }
    }

    /** The callback registered on the handle. */
    method OnEvent(e: Event)
      requires Valid()
      modifies this, session
      ensures Valid() && AsState() == Tapped(session.lib, old(AsState()), e)
    {
      if !live {
        buffered := buffered + [e];
        return;
      }
      AppendEvent(e);
    }

    method ReplayHistory(history: seq<Event>) returns (ok: bool)
      requires Valid()
      modifies this, session
      ensures Valid() && buffered == old(buffered) && live == old(live) && failed == old(failed)
      ensures ok <==> Replayed(session.lib, old(session.log), history).Some?
      ensures ok ==> session.log == Replayed(session.lib, old(session.log), history).value
    {
      for i := 0 to |history|
        invariant Valid() && buffered == old(buffered) && live == old(live) && failed == old(failed)
        invariant Replayed(session.lib, old(session.log), history) == Replayed(session.lib, session.log, history[i..])
      {
        if history[i].seq_ != |session.log| { return false; }
        assert history[i..][1..] == history[i + 1..];
        var accepted := session.AppendMirrored(history[i]);
        if !accepted { return false; }
      }
      return true;
    }

    method GoLive()
      requires Valid()
      modifies this, session
      ensures Valid() && AsState() == WentLive(session.lib, old(AsState()))
    {
      live := true;
      ghost var start := AsState();
      for i := 0 to |buffered|
        invariant Valid() && buffered == old(buffered)
        invariant AppendedAll(session.lib, start, buffered) == AppendedAll(session.lib, AsState(), buffered[i..])
      {
        assert buffered[i..][1..] == buffered[i + 1..];
        AppendEvent(buffered[i]);
      }
    }
  }

  // ---------------------------------------------------------------- every run

  /**
   One mirror over a growing remote log. `seen` collects what the handle passed
   to the tap; `boot` is set once history was replayed, `gone` when that failed.
   */
  datatype World = World(lib: Library, remote: seq<Event>, m: State, seen: seq<Event>, boot: bool, gone: bool)

  datatype Move =
    | RemoteAppend(kind: string, body: Body)
    | Deliver(e: Event)
    | Bootstrap(upTo: nat)
    | Publish
    | LocalAppend(entry: Entry)

  function Next(w: World, move: Move): World {
    match move
    case RemoteAppend(kind, body) => w.(remote := w.remote + [Event(|w.remote|, kind, body)])
    case Deliver(e) =>
      if w.gone || e !in w.remote then w else w.(m := Tapped(w.lib, w.m, e), seen := w.seen + [e])
    case Bootstrap(upTo) =>
      if w.gone || w.boot || !(|w.m.log| <= upTo <= |w.remote|) then w
      else
        var r := Replayed(w.lib, w.m.log, w.remote[|w.m.log|..upTo]);
        if r.None? then w.(gone := true) else w.(m := w.m.(log := r.value), boot := true)
    case Publish =>
      if w.gone || !w.boot || w.m.live then w else w.(m := WentLive(w.lib, w.m))
    case LocalAppend(entry) => w
  }

  function Run(w: World, moves: seq<Move>): World
    decreases |moves|
  {
    if moves == [] then w else Run(Next(w, moves[0]), moves[1..])
  }

  /** The local log is the image of a prefix of the remote log, type and data alike. */
  ghost predicate Exact(lib: Library, log: seq<Entry>, remote: seq<Event>) {
    |log| <= |remote| && log == MirroredAll(lib, remote[..|log|])
  }

  ghost predicate Genuine(es: seq<Event>, remote: seq<Event>) {
    forall e <- es :: 0 <= e.seq_ < |remote| && remote[e.seq_] == e
  }

  ghost predicate Inv(w: World) {
    && Contiguous(w.remote) && Exact(w.lib, w.m.log, w.remote)
    && Genuine(w.seen, w.remote) && Genuine(w.m.buffered, w.remote)
    && (!w.m.live ==> w.m.buffered == w.seen && !w.m.failed) && (w.m.live ==> w.boot)
    && (w.m.live && !w.m.failed ==> forall e <- w.seen :: e.seq_ < |w.m.log|)
  }

  lemma AppendKeepsExact(lib: Library, m: State, e: Event, remote: seq<Event>)
    requires Exact(lib, m.log, remote) && 0 <= e.seq_ < |remote| && remote[e.seq_] == e
    ensures var n := Appended(lib, m, e);
            && Exact(lib, n.log, remote) && m.log <= n.log && (m.failed ==> n == m)
            && (!n.failed ==> e.seq_ < |n.log|) && n.live == m.live && n.buffered == m.buffered
  {
    if !m.failed && e.seq_ == |m.log| { assert remote[..|m.log| + 1] == remote[..|m.log|] + [e]; }
  }

  lemma {:induction false} AppendAllKeepsExact(lib: Library, m: State, es: seq<Event>, remote: seq<Event>)
    requires Exact(lib, m.log, remote) && Genuine(es, remote)
    ensures var n := AppendedAll(lib, m, es);
            && Exact(lib, n.log, remote) && m.log <= n.log && (m.failed ==> n == m)
            && (!n.failed ==> forall e <- es :: e.seq_ < |n.log|) && n.live == m.live && n.buffered == m.buffered
    decreases |es|
  {
    if es != [] {
      AppendKeepsExact(lib, m, es[0], remote);
      AppendAllKeepsExact(lib, Appended(lib, m, es[0]), es[1..], remote);
      assert forall e <- es :: e == es[0] || e in es[1..];
    }
  }

  lemma {:induction false} ReplayKeepsExact(lib: Library, log: seq<Entry>, remote: seq<Event>, upTo: nat)
    requires Contiguous(remote) && Exact(lib, log, remote) && |log| <= upTo <= |remote|
    ensures var r := Replayed(lib, log, remote[|log|..upTo]);
            && (r.Some? ==> r.value == MirroredAll(lib, remote[..upTo]))
            && (r.Some? ==> forall i | 0 <= i < upTo :: Depicts(lib, r.value[i], remote[i]))
            && (r.Some? <==> forall i | |log| <= i < upTo :: lib.valid(Mirrored(lib, remote[i])))
    decreases upTo - |log|
  {
    if |log| < upTo {
      var e := remote[|log|];
      assert remote[|log|..upTo][1..] == remote[|log| + 1..upTo];
      assert remote[..|log| + 1] == remote[..|log|] + [e];
      if lib.valid(Mirrored(lib, e)) { ReplayKeepsExact(lib, log + [Mirrored(lib, e)], remote, upTo); }
    } else {
      assert remote[|log|..upTo] == [];
    }
  }

  lemma NextKeepsInv(w: World, move: Move)
    requires Inv(w)
    ensures Inv(Next(w, move))
  {
    match move
    case RemoteAppend(kind, body) =>
      assert Next(w, move).remote[..|w.m.log|] == w.remote[..|w.m.log|];
    case Deliver(e) =>
      if !w.gone && e in w.remote && w.m.live { AppendKeepsExact(w.lib, w.m, e, w.remote); }
    case Bootstrap(upTo) =>
      if |w.m.log| <= upTo <= |w.remote| { ReplayKeepsExact(w.lib, w.m.log, w.remote, upTo); }
    case Publish => AppendAllKeepsExact(w.lib, w.m.(live := true), w.m.buffered, w.remote);
    case LocalAppend(entry) =>
  }

  /** What the moves of a run change: the remote log grows by the event appended, and the tap hears each event delivered. */
  lemma RemoteMoves(w: World, kind: string, body: Body, e: Event, entry: Entry)
    ensures var z := Next(w, RemoteAppend(kind, body));
            && |z.remote| == |w.remote| + 1 && w.remote <= z.remote && z.m == w.m
            && z.remote[|w.remote|].seq_ == |w.remote| && z.remote[|w.remote|].kind == kind && z.remote[|w.remote|].body == body
    ensures !w.gone && e in w.remote ==> Next(w, Deliver(e)).seen == w.seen + [e]
    ensures !w.gone && e in w.remote && !w.m.live ==> Next(w, Deliver(e)).m.buffered == w.m.buffered + [e]
    ensures Next(w, LocalAppend(entry)) == w
  {
  }

  /**
   A bootstrap either mirrors history up to the point it read, or, exactly when
   an entry is rejected, gives the session up; publishing then goes live. With
   nothing delivered before, and after that exactly the events behind, the
   mirror has the whole remote log.
   */
  lemma BootstrapDecides(w: World, upTo: nat)
    requires Inv(w) && !w.gone && !w.boot && |w.m.log| <= upTo <= |w.remote|
    ensures var z := Next(w, Bootstrap(upTo));
            var accepted := forall i | |w.m.log| <= i < upTo :: w.lib.valid(Mirrored(w.lib, w.remote[i]));
            && (z.gone <==> !accepted) && (z.boot <==> accepted)
            && z.remote == w.remote && z.seen == w.seen
            && (accepted ==> |z.m.log| == upTo && forall i | 0 <= i < upTo :: Depicts(w.lib, z.m.log[i], w.remote[i]))
            && (accepted ==> Next(z, Publish).m.live && (w.seen == [] ==> Next(z, Publish).m == z.m.(live := true)))
  {
    ReplayKeepsExact(w.lib, w.m.log, w.remote, upTo);
    NextKeepsInv(w, Bootstrap(upTo));
    var z := Next(w, Bootstrap(upTo));
    AppendAllKeepsExact(w.lib, z.m.(live := true), z.m.buffered, w.remote);
  }

  /**
   In every reachable state the mirror's log is, entry by entry and field by
   field, a prefix of the remote log, and a live mirror that has not failed covers every event its
   handle delivered.
   */
  lemma {:induction false} MirrorIsExact(w: World, moves: seq<Move>)
    requires Inv(w)
    ensures var z := Run(w, moves);
            && |z.m.log| <= |z.remote|
            && (forall i | 0 <= i < |z.m.log| :: Depicts(z.lib, z.m.log[i], z.remote[i]))
            && (z.m.live && !z.m.failed ==> forall e <- z.seen :: e.seq_ < |z.m.log|)
    decreases |moves|
  {
    if moves != [] {
      NextKeepsInv(w, moves[0]);
      MirrorIsExact(Next(w, moves[0]), moves[1..]);
    }
  }

  /** A failed mirror never grows again, and an unfailed one never loses an entry. */
  lemma {:induction false} FailedIsFrozen(w: World, moves: seq<Move>)
    requires Inv(w)
    ensures w.m.log <= Run(w, moves).m.log
    ensures w.m.failed ==> Run(w, moves).m.failed && Run(w, moves).m.log == w.m.log
    decreases |moves|
  {
    if moves != [] {
      NextKeepsInv(w, moves[0]);
      match moves[0] {
        case Deliver(e) =>
          if !w.gone && e in w.remote { AppendKeepsExact(w.lib, w.m, e, w.remote); }
        case Bootstrap(upTo) =>
          if |w.m.log| <= upTo <= |w.remote| {
            ReplayKeepsExact(w.lib, w.m.log, w.remote, upTo);
            assert w.remote[..upTo][..|w.m.log|] == w.remote[..|w.m.log|];
          }
        case Publish => AppendAllKeepsExact(w.lib, w.m.(live := true), w.m.buffered, w.remote);
        case _ =>
      }
      FailedIsFrozen(Next(w, moves[0]), moves[1..]);
    }
  }

  // ---------------------------------------------------------------- exactly when it freezes

  /** Appending a batch fails exactly when some event is not the next seq or is rejected. */
  lemma {:induction false} AppendAllFailsIff(lib: Library, m: State, es: seq<Event>)
    requires !m.failed
    ensures var n := AppendedAll(lib, m, es);
            && (!n.failed <==> forall i | 0 <= i < |es| :: es[i].seq_ == |m.log| + i && lib.valid(Mirrored(lib, es[i])))
            && (!n.failed ==> n.log == m.log + MirroredAll(lib, es))
    decreases |es|
  {
    if es != [] {
      var n := Appended(lib, m, es[0]);
      var rest := es[1..];
      if n.failed {
        AppendAllFrozen(lib, n, rest);
        assert !(es[0].seq_ == |m.log| + 0 && lib.valid(Mirrored(lib, es[0])));
      } else {
        AppendAllFailsIff(lib, n, rest);
        assert forall i | 0 <= i < |rest| :: rest[i] == es[i + 1];
        assert forall i | 1 <= i < |es| :: es[i] == rest[i - 1];
        assert MirroredAll(lib, es) == [Mirrored(lib, es[0])] + MirroredAll(lib, rest);
      }
    }
  }

  lemma {:induction false} AppendAllFrozen(lib: Library, m: State, es: seq<Event>)
    requires m.failed
    ensures AppendedAll(lib, m, es) == m
    decreases |es|
  {
    if es != [] { AppendAllFrozen(lib, m, es[1..]); }
  }

  lemma {:induction false} AppendedAllJoin(lib: Library, m: State, a: seq<Event>, b: seq<Event>)
    ensures AppendedAll(lib, m, a + b) == AppendedAll(lib, AppendedAll(lib, m, a), b)
    decreases |a|
  {
    if a == [] {
      assert a + b == b;
    } else {
      assert (a + b)[1..] == a[1..] + b;
      AppendedAllJoin(lib, Appended(lib, m, a[0]), a[1..], b);
    }
  }

  /** What a feed of events makes of the mirror, buffering or appending. */
  function Fed(lib: Library, m: State, es: seq<Event>): State
    decreases |es|
  {
    if es == [] then m else Fed(lib, Tapped(lib, m, es[0]), es[1..])
  }

  lemma {:induction false} FedLive(lib: Library, m: State, es: seq<Event>)
    requires m.live
    ensures Fed(lib, m, es) == AppendedAll(lib, m, es)
    decreases |es|
  {
    if es != [] { FedLive(lib, Tapped(lib, m, es[0]), es[1..]); }
  }

  lemma {:induction false} FedBuffering(lib: Library, m: State, es: seq<Event>)
    requires !m.live
    ensures Fed(lib, m, es) == m.(buffered := m.buffered + es)
    decreases |es|
  {
    if es == [] {
      assert m.buffered + [] == m.buffered;
    } else {
      assert (m.buffered + [es[0]]) + es[1..] == m.buffered + es;
      FedBuffering(lib, Tapped(lib, m, es[0]), es[1..]);
    }
  }

  /**
   Fed by a complete delivery (log entries `first` up to `last`, in order), of
   which those before `mid` arrive before it goes live, a mirror bootstrapped
   with its log of history ends up frozen exactly when something was delivered
   and history had run past the attach point, or a delivered event is rejected.
   */
  lemma FreezesIffHistoryOverlaps(lib: Library, m: State, remote: seq<Event>, first: nat, mid: nat, last: nat)
    requires Contiguous(remote) && Exact(lib, m.log, remote) && !m.live && !m.failed && m.buffered == []
    requires first <= mid <= last <= |remote| && first <= |m.log|
    ensures var early := Fed(lib, m, remote[first..mid]);
            Fed(lib, WentLive(lib, early), remote[mid..last]).failed <==>
              first < last && (first < |m.log| || exists i | first <= i < last :: !lib.valid(Mirrored(lib, remote[i])))
  {
    var es := remote[first..last];
    FedBuffering(lib, m, remote[first..mid]);
    var early := Fed(lib, m, remote[first..mid]);
    assert early.buffered == [] + remote[first..mid] == remote[first..mid];
    var live := early.(live := true);
    assert es == remote[first..mid] + remote[mid..last];
    AppendedAllJoin(lib, live, remote[first..mid], remote[mid..last]);
    StaysLive(lib, live, remote[first..mid]);
    FedLive(lib, WentLive(lib, early), remote[mid..last]);
    AppendAllFailsIff(lib, live, es);
    FailsIffOverlaps(lib, remote, first, last, |m.log|);
  }

  lemma {:induction false} StaysLive(lib: Library, m: State, es: seq<Event>)
    ensures AppendedAll(lib, m, es).live == m.live
    decreases |es|
  {
    if es != [] { StaysLive(lib, Appended(lib, m, es[0]), es[1..]); }
  }

  lemma FailsIffOverlaps(lib: Library, remote: seq<Event>, first: nat, last: nat, length: nat)
    requires Contiguous(remote) && first <= last <= |remote| && first <= length
    ensures var es := remote[first..last];
            (forall i | 0 <= i < |es| :: es[i].seq_ == length + i && lib.valid(Mirrored(lib, es[i]))) <==>
              !(first < last && (first < length || exists i | first <= i < last :: !lib.valid(Mirrored(lib, remote[i]))))
  {
    var es := remote[first..last];
    assert forall i | 0 <= i < |es| :: es[i] == remote[first + i] && es[i].seq_ == first + i;
    if first < last {
      assert es[0] == remote[first];
      assert forall i | first <= i < last :: remote[i] == es[i - first];
    }
  }
}
