/**
 Session event delivery from the host log to one client handle: broker replay
 and live feed, one FIFO channel per connection, attach, escalation, dropped
 connections and re-attach (handle.ts, connection.ts, client.ts, broker.ts).

 The broker side is `Broker.Apply` and `Broker.Told` themselves, shared with any
 number of other clients. Two gaps of the code are kept as separate steps: a
 reply is written after the handler returned (`Flush`), and the handle is
 subscribed after the reply was dispatched (`Subscribe`).
 */
module Delivery {
  import opened Wrappers
  import opened Broker

  datatype Message = Note(notice: Notice) | Reply(lastSeq: int)

  datatype Request =
    | First(mode: Mode, force: bool)
    | From(since: int, mode: Mode, force: bool)
    | Leave
    | Yield

  const NO_BODY := Body(None, None, None)

  // ---------------------------------------------------------------- the handle

  /** The delivery state of a client handle; `initial` is the attach result's head. */
  datatype Handle = Handle(initial: int, cursor: int, detached: bool, delivered: seq<Event>)

  function NewHandle(last: int): Handle {
    Handle(last, last, false, [])
  }

  /** De-duplicate by cursor, else deliver and advance. */
  function Receive(h: Handle, e: Event): Handle {
    if h.detached || e.seq_ <= h.cursor then h
    else h.(cursor := e.seq_, delivered := h.delivered + [e])
  }

  class DaemonAgentHandle {
    const initial: int
    var cursor: int
    var mode: Mode
    var detachedFlag: bool
    /** Events passed to the `onEvent` callbacks. */
    var delivered: seq<Event>

    constructor (initialLastSeq: int, mode: Mode)
      ensures AsHandle() == NewHandle(initialLastSeq) && this.mode == mode
    {
      initial, cursor, this.mode, detachedFlag, delivered := initialLastSeq, initialLastSeq, mode, false, [];
    }

    function AsHandle(): Handle
      reads this
    {
      Handle(initial, cursor, detachedFlag, delivered)
    }

    method HandleEvent(e: Event)
      modifies this
      ensures AsHandle() == Receive(old(AsHandle()), e) && mode == old(mode)
    {
      if detachedFlag || e.seq_ <= cursor { return; }
      cursor := e.seq_;
      delivered := delivered + [e];
    }

    /** Attaching from `since` replays exactly what this handle misses: deliveries and replay join to one stretch of the log. */
    ghost predicate Resumes(since: int)
      reads this
    {
      forall log :: Contiguous(log) && Delivered(AsHandle(), log) ==>
        Feeds(delivered) + Replay(log, since) == Feeds(log[cursor + 1 - |delivered|..])
    }

    lemma CursorResumes()
      ensures Resumes(cursor)
    {
      forall log | Contiguous(log) && Delivered(AsHandle(), log)
        ensures Feeds(delivered) + Replay(log, cursor) == Feeds(log[cursor + 1 - |delivered|..])
      {
        ReplayJoins(AsHandle(), log);
      }
    }

    /** The re-attach after a dropped connection keeps the mode, never forces, and resumes behind the last event delivered. */
    method ReattachRequest() returns (r: Request)
      ensures r.From? && Resumes(r.since) && r.mode == mode && !r.force
    {
      CursorResumes();
      r := From(cursor, mode, false);
    }

    /** Escalation: nothing is sent by a writer; else a write attach that resumes, after which the handle writes if granted. */
    method AcquireWrite(force: bool, granted: bool) returns (r: Option<Request>)
      modifies this`mode
      ensures r.Some? <==> old(mode) != Write
      ensures r.Some? ==> r.value.From? && Resumes(r.value.since) && r.value.mode == Write && r.value.force == force
      ensures mode == Write <==> old(mode) == Write || granted
    {
      if mode == Write { return None; }
      r := Some(From(cursor, Write, force));
      if granted { mode := Write; }
      CursorResumes();
    }

    /** A change of holder heard on the feed: the mode follows who holds control. */
    method HandleControl(mine: bool, reason: Reason)
      modifies this
      ensures AsHandle() == old(AsHandle())
      ensures mode == Write <==> (if detachedFlag then old(mode) == Write else mine && (old(mode) == Write || reason == Acquired))
    {
      if detachedFlag { return; }
      if mode == Write && !mine { mode := Read; }
      else if mine && reason == Acquired { mode := Write; }
    }

    method Detach()
      modifies this
      ensures AsHandle() == old(AsHandle()).(detached := true) && mode == old(mode)
    {
      detachedFlag := true;
    }
  }

  // ---------------------------------------------------------------- the system

  datatype Phase = Idle | Asking | Answered(last: int) | Live | Gone

  /**
   One client handle and everything it depends on. `me` names the current
   connection's client; `seen` is the last event seq the channel dispatched and
   `missed` how many events had been dispatched past the attach result when the
   handle subscribed (both only observe).
   */
  datatype Net = Net(
    broker: View, me: Key, log: seq<Event>,
    up: bool, requests: seq<Request>, reply: Option<int>, wire: seq<Message>,
    phase: Phase, handle: Handle, seen: int, missed: int)

  datatype Move =
    | Append(kind: string, body: Body)
    | Others(step: Step)
    | Ask(mode: Mode, force: bool)
    | Resume(since: int, mode: Mode, force: bool)
    | Serve(now: string)
    | Flush
    | Dispatch
    | Subscribe
    | ReleaseControl
    | DetachHandle
    | DropChannel
    | Reconnect(client: ClientId)

  function Notes(ns: seq<Notice>): seq<Message> {
    seq(|ns|, i requires 0 <= i < |ns| => Note(ns[i]))
  }

  /** The client a broker step acts for; host events act for nobody. */
  function Actor(step: Step): Option<ClientId> {
    if step.HostEvent? then None else Some(step.c)
  }

  /** Let the broker take `step`; what it tells `me` goes onto the live channel. */
  function BrokerStep(n: Net, step: Step): Net {
    n.(broker := Apply(n.broker, step),
       wire := if n.up then n.wire + Notes(Told(n.broker, step, n.me)) else [])
  }

  function ServeFirst(n: Net, r: Request, now: string): Net
    requires r.First?
  {
    var step := Attach(n.me.client, n.me.session, Some(n.log), None, r.mode, r.force, now);
    var outcome := AttachOutcome(n.broker, n.me, Some(n.log), r.mode, r.force);
    var m := BrokerStep(n, step);
    if outcome.Attached? then m.(reply := Some(outcome.lastSeq), seen := |n.log| - 1) else m.(phase := Idle)
  }

  function ServeRequest(n: Net, r: Request, now: string): Net {
    match r
    case First(_, _) => ServeFirst(n, r, now)
    case From(since, mode, force) =>
      BrokerStep(n, Attach(n.me.client, n.me.session, Some(n.log), Some(since), mode, force, now))
    case Leave => BrokerStep(n, Detach(n.me.client, n.me.session))
    case Yield => BrokerStep(n, Release(n.me.client, n.me.session))
  }

  function DispatchMessage(n: Net, m: Message): Net {
    match m
    case Note(Feed(e)) =>
      n.(seen := e.seq_, handle := if n.phase == Live then Receive(n.handle, e) else n.handle)
    case Note(Control(_, _)) => n
    case Reply(last) => if n.phase == Asking then n.(phase := Answered(last)) else n
  }

  /** One atomic step of the system; a move that is not enabled leaves it as it is. */
  function Next(n: Net, move: Move): Net {
    match move
    case Append(kind, body) =>
      var e := Event(|n.log|, kind, body);
      BrokerStep(n, HostEvent(n.me.session, e)).(log := n.log + [e])
    case Others(step) =>
      var mine := Actor(step) == Some(n.me.client) && n.up;
      if mine || (step.HostEvent? && step.s == n.me.session) then n else BrokerStep(n, step)
    case Ask(mode, force) =>
      if n.up && n.phase == Idle then n.(phase := Asking, requests := [First(mode, force)]) else n
    case Resume(since, mode, force) =>
      if n.up && n.phase == Live && since <= n.handle.cursor
      then n.(requests := n.requests + [From(since, mode, force)]) else n
    case Serve(now) =>
      if n.up && n.requests != [] then ServeRequest(n.(requests := n.requests[1..]), n.requests[0], now) else n
    case Flush =>
      if n.up && n.reply.Some? then n.(reply := None, wire := n.wire + [Reply(n.reply.value)]) else n
    case Dispatch =>
      if n.up && n.wire != [] then DispatchMessage(n.(wire := n.wire[1..]), n.wire[0]) else n
    case Subscribe =>
      if n.phase.Answered?
      then n.(phase := Live, handle := NewHandle(n.phase.last), missed := if n.up then n.seen - n.phase.last else 0)
      else n
    case ReleaseControl =>
      if n.up && n.phase == Live then n.(requests := n.requests + [Yield]) else n
    case DetachHandle =>
      if n.phase == Live
      then n.(phase := Gone, handle := n.handle.(detached := true), requests := if n.up then n.requests + [Leave] else [])
      else n
    case DropChannel =>
      n.(up := false, requests := [], reply := None, wire := [], phase := if n.phase == Asking then Idle else n.phase)
    case Reconnect(client) =>
      if n.up || client in n.broker.connected || n.phase.Answered? then n
      else n.(up := true, me := Key(client, n.me.session), seen := n.handle.cursor,
              broker := Apply(n.broker, Connect(client)))
  }

  function Run(n: Net, moves: seq<Move>): Net
    decreases |moves|
  {
    if moves == [] then n else Run(Next(n, moves[0]), moves[1..])
  }

  /** A connected client that has not asked for the session yet. */
  ghost predicate Initial(n: Net) {
    && Sound(n.broker) && n.me.client in n.broker.connected && n.me !in n.broker.attached
    && n.up && n.requests == [] && n.reply.None? && n.wire == [] && n.phase == Idle
    && Contiguous(n.log)
    && n.handle == NewHandle(-1) && n.missed == 0
  }

  ghost predicate Contiguous(log: seq<Event>) {
    forall i | 0 <= i < |log| :: log[i].seq_ == i
  }

  // ---------------------------------------------------------------- the invariant

  /** Event `y` may follow event `x` on the wire: it is the next one, or one the cursor does not skip over. */
  predicate Follows(y: int, x: int, cursor: int) {
    y == x + 1 || y <= cursor + 1
  }

  ghost predicate Chain(wire: seq<Message>, x: int, cursor: int, log: seq<Event>)
    decreases |wire|
  {
    wire != [] ==>
      match wire[0]
      case Note(Feed(e)) => 0 <= e.seq_ < |log| && log[e.seq_] == e && Follows(e.seq_, x, cursor) && Chain(wire[1..], e.seq_, cursor, log)
      case Note(Control(_, _)) => Chain(wire[1..], x, cursor, log)
      case Reply(last) => -1 <= last <= x < |log| && Chain(wire[1..], x, cursor, log)
  }

  /** The last event on the wire, or `x` when it carries none. */
  function Tail(wire: seq<Message>, x: int): int
    decreases |wire|
  {
    if wire == [] then x
    else Tail(wire[1..], if wire[0].Note? && wire[0].notice.Feed? then wire[0].notice.event.seq_ else x)
  }

  /** Before a handle exists no event may go back: no request can ask for a replay. */
  function Reach(n: Net): int {
    if n.phase == Live then n.handle.cursor else if n.phase == Gone then |n.log| else -2
  }

  ghost predicate Delivered(h: Handle, log: seq<Event>) {
    && -1 <= h.initial <= h.cursor < |log|
    && |h.delivered| <= h.cursor - h.initial
    && h.delivered == log[h.cursor + 1 - |h.delivered|..h.cursor + 1]
    && (h.delivered == [] ==> h.cursor == h.initial)
  }

  ghost predicate Complete(h: Handle, log: seq<Event>) {
    -1 <= h.initial <= h.cursor < |log| && h.delivered == log[h.initial + 1..h.cursor + 1]
  }

  ghost predicate Channel(n: Net) {
    && n.me.client in n.broker.connected
    && (n.phase == Idle ==> n.requests == [] && n.reply.None? && n.wire == [] && n.me !in n.broker.attached)
    && (n.phase == Asking ==>
          || (n.requests == [] && n.me in n.broker.attached)
          || (|n.requests| == 1 && n.requests[0].First? && n.reply.None? && n.wire == [] && n.me !in n.broker.attached))
    && (n.phase.Answered? ==> n.requests == [] && n.me in n.broker.attached && n.phase.last <= n.seen)
    && (n.phase == Live ==>
          && (forall r <- n.requests :: !r.First? && (r.From? ==> r.since <= n.handle.cursor))
          && (n.handle.delivered != [] || n.missed == 0 ==> n.seen <= n.handle.cursor))
    && (n.phase == Gone ==> forall r <- n.requests :: !r.First?)
    && (n.phase != Idle ==> Chain(n.wire, n.seen, Reach(n), n.log))
    && (n.me in n.broker.attached && n.phase != Gone ==>
          Tail(n.wire, n.seen) == |n.log| - 1 || (n.phase == Live && n.handle.cursor == |n.log| - 1))
    && (n.reply.Some? ==> n.phase != Idle && -1 <= n.reply.value <= Tail(n.wire, n.seen) < |n.log|)
  }

  ghost predicate Inv(n: Net) {
    && Sound(n.broker) && Contiguous(n.log)
    && (if n.up then Channel(n) else n.requests == [] && n.reply.None? && n.wire == [] && n.phase != Asking)
    && (n.phase.Answered? ==> -1 <= n.phase.last < |n.log|)
    && (n.phase == Live || n.phase == Gone ==>
          && 0 <= n.missed && Delivered(n.handle, n.log) && (n.missed == 0 ==> Complete(n.handle, n.log)))
    && (n.phase == Live ==> !n.handle.detached)
  }

  // ---------------------------------------------------------------- chains

  lemma {:induction false} ChainAppend(a: seq<Message>, b: seq<Message>, x: int, cursor: int, log: seq<Event>)
    ensures Chain(a + b, x, cursor, log) <==> Chain(a, x, cursor, log) && Chain(b, Tail(a, x), cursor, log)
    ensures Tail(a + b, x) == Tail(b, Tail(a, x))
    decreases |a|
  {
    if a == [] {
      assert a + b == b;
    } else {
      assert (a + b)[1..] == a[1..] + b;
      ChainAppend(a[1..], b, if a[0].Note? && a[0].notice.Feed? then a[0].notice.event.seq_ else x, cursor, log);
    }
  }

  lemma {:induction false} ChainGrows(w: seq<Message>, x: int, cursor: int, log: seq<Event>, cursor': int, log': seq<Event>)
    requires Chain(w, x, cursor, log) && cursor <= cursor' && log <= log'
    ensures Chain(w, x, cursor', log')
    decreases |w|
  {
    if w != [] {
      ChainGrows(w[1..], if w[0].Note? && w[0].notice.Feed? then w[0].notice.event.seq_ else x, cursor, log, cursor', log');
    }
  }

  lemma {:induction false} ControlsAreTransparent(ns: seq<Notice>, x: int, cursor: int, log: seq<Event>)
    requires forall n <- ns :: n.Control?
    ensures Chain(Notes(ns), x, cursor, log) && Tail(Notes(ns), x) == x
    decreases |ns|
  {
    if ns != [] {
      assert Notes(ns)[1..] == Notes(ns[1..]);
      ControlsAreTransparent(ns[1..], x, cursor, log);
    }
  }

  function Feeds(es: seq<Event>): seq<Notice> {
    seq(|es|, i requires 0 <= i < |es| => Feed(es[i]))
  }

  function ReplayStart(since: int, n: nat): nat {
    if since < 0 then 0 else if since >= n then n else since + 1
  }

  /** On a contiguous log the replay after `since` is a suffix of the log. */
  lemma ReplayIsSuffix(log: seq<Event>, since: int)
    requires Contiguous(log)
    ensures ReplayStart(since, |log|) <= |log|
    ensures Replay(log, since) == Feeds(log[ReplayStart(since, |log|)..])
  {
    ReplayFromOffset(log, 0, since);
    assert log[0..] == log;
  }

  /** What a handle delivered and the replay behind its cursor are one stretch of the log. */
  lemma ReplayJoins(h: Handle, log: seq<Event>)
    requires Contiguous(log) && Delivered(h, log)
    ensures Feeds(h.delivered) + Replay(log, h.cursor) == Feeds(log[h.cursor + 1 - |h.delivered|..])
  {
    ReplayIsSuffix(log, h.cursor);
    hide Replay;
    hide Contiguous;
    var from := h.cursor + 1 - |h.delivered|;
    assert h.delivered + log[h.cursor + 1..] == log[from..];
    assert Feeds(h.delivered) + Feeds(log[h.cursor + 1..]) == Feeds(h.delivered + log[h.cursor + 1..]);
  }

  lemma {:induction false} ReplayFromOffset(log: seq<Event>, i: nat, since: int)
    requires Contiguous(log) && i <= |log|
    ensures var k := ReplayStart(since, |log|);
            k <= |log| && Replay(log[i..], since) == Feeds(log[if i < k then k else i..])
    decreases |log| - i
  {
    if i < |log| {
      assert log[i..][1..] == log[i + 1..];
      ReplayFromOffset(log, i + 1, since);
    }
  }

  lemma {:induction false} ChainOfFeeds(log: seq<Event>, k: nat, x: int, cursor: int)
    requires Contiguous(log) && k <= |log| && (k < |log| ==> Follows(k, x, cursor))
    ensures Chain(Notes(Feeds(log[k..])), x, cursor, log)
    ensures Tail(Notes(Feeds(log[k..])), x) == if k < |log| then |log| - 1 else x
    decreases |log| - k
  {
    if k < |log| {
      assert Notes(Feeds(log[k..]))[1..] == Notes(Feeds(log[k + 1..]));
      ChainOfFeeds(log, k + 1, k, cursor);
    }
  }

  lemma NotesAppend(a: seq<Notice>, b: seq<Notice>)
    ensures Notes(a + b) == Notes(a) + Notes(b)
  {
  }

  lemma OthersTellControl(v: View, step: Step, x: Key)
    requires Actor(step) != Some(x.client) && !(step.HostEvent? && step.s == x.session)
    ensures forall n <- Told(v, step, x) :: n.Control?
    ensures x in Apply(v, step).attached <==> x in v.attached
    ensures x.client in Apply(v, step).connected <==> x.client in v.connected
  {
  }

  // ---------------------------------------------------------------- preservation

  /** What an append of the log puts on the wire. */
  lemma AppendTells(n: Net, e: Event)
    requires n.up
    ensures var told := Notes(Told(n.broker, HostEvent(n.me.session, e), n.me));
            && BrokerStep(n, HostEvent(n.me.session, e)) == n.(wire := n.wire + told)
            && told == if n.me in n.broker.attached then [Note(Feed(e))] else []
  {
    assert Told(n.broker, HostEvent(n.me.session, e), n.me) == if n.me in n.broker.attached then [Feed(e)] else [] by {
      FeedIsTold(n.broker, n.me, e);
    }
    assert Apply(n.broker, HostEvent(n.me.session, e)) == n.broker;
  }

  lemma FeedIsTold(v: View, x: Key, e: Event)
    ensures Told(v, HostEvent(x.session, e), x) == if x in v.attached then [Feed(e)] else []
  {
  }

  lemma AppendKeepsInv(n: Net, kind: string, body: Body)
    requires Inv(n)
    ensures Inv(Next(n, Append(kind, body)))
  {
    var m := Next(n, Append(kind, body));
    var e := Event(|n.log|, kind, body);
    assert m.log[..|n.log|] == n.log;
    if n.up {
      AppendTells(n, e);
      hide BrokerStep;
      hide Told;
      hide Apply;
      if n.phase != Idle {
        var sent := if n.me in n.broker.attached then [Note(Feed(e))] else [];
        ChainGrows(n.wire, n.seen, Reach(n), n.log, Reach(m), m.log);
        ChainAppend(n.wire, sent, n.seen, Reach(m), m.log);
      }
    }
  }

  lemma OthersKeepInv(n: Net, step: Step)
    requires Inv(n)
    ensures Inv(Next(n, Others(step)))
  {
    ApplyKeepsSound(n.broker, step);
    hide Sound;
    hide Contiguous;
    if n.up && Actor(step) != Some(n.me.client) && !(step.HostEvent? && step.s == n.me.session) {
      OthersTellControl(n.broker, step, n.me);
      hide Told;
      hide Apply;
      var told := Told(n.broker, step, n.me);
      if n.phase != Idle {
        ChainAppend(n.wire, Notes(told), n.seen, Reach(n), n.log);
        ControlsAreTransparent(told, Tail(n.wire, n.seen), Reach(n), n.log);
      }
    }
  }

  /** A first attach replays nothing: it tells at most a change of holder, and nothing when it is refused. */
  lemma FirstTells(v: View, x: Key, log: seq<Event>, mode: Mode, force: bool, now: string)
    requires x.client in v.connected
    ensures var step := Attach(x.client, x.session, Some(log), None, mode, force, now);
            var r := AttachOutcome(v, x, Some(log), mode, force);
            && (forall y <- Told(v, step, x) :: y.Control?)
            && (!r.Attached? ==> Told(v, step, x) == [])
            && (r.Attached? ==> r.lastSeq == |log| - 1)
            && (x in Apply(v, step).attached <==> r.Attached?)
            && x.client in Apply(v, step).connected
  {
  }

  lemma ServeFirstIs(n: Net, now: string)
    requires n.up && n.requests != [] && n.requests[0].First?
    ensures var r := n.requests[0];
            var step := Attach(n.me.client, n.me.session, Some(n.log), None, r.mode, r.force, now);
            var outcome := AttachOutcome(n.broker, n.me, Some(n.log), r.mode, r.force);
            var m := n.(broker := Apply(n.broker, step), requests := n.requests[1..], wire := n.wire + Notes(Told(n.broker, step, n.me)));
            Next(n, Serve(now)) == if outcome.Attached? then m.(reply := Some(outcome.lastSeq), seen := |n.log| - 1) else m.(phase := Idle)
  {
    hide Apply;
    hide Told;
    hide AttachOutcome;
  }

  lemma ServeFirstKeepsInv(n: Net, now: string)
    requires Inv(n) && n.up && n.requests != [] && n.requests[0].First?
    ensures Inv(Next(n, Serve(now)))
  {
    hide Told;
    hide Apply;
    hide AttachOutcome;
    hide Next;
    var r := n.requests[0];
    var step := Attach(n.me.client, n.me.session, Some(n.log), None, r.mode, r.force, now);
    var told := Told(n.broker, step, n.me);
    ServeFirstIs(n, now);
    ApplyKeepsSound(n.broker, step);
    FirstTells(n.broker, n.me, n.log, r.mode, r.force, now);
    hide Sound;
    ControlsAreTransparent(told, |n.log| - 1, -2, n.log);
    var m := Next(n, Serve(now));
    assert n.wire + Notes(told) == Notes(told);
    assert told == [] ==> Notes(told) == [];
    hide Notes;
    assert m.requests == [];
    assert Channel(m);
  }

  /** An attach that resumes: the replay, then at most one change of holder. */
  lemma ResumeTells(v: View, x: Key, log: seq<Event>, since: int, mode: Mode, force: bool, now: string)
    requires x.client in v.connected
    ensures var told := Told(v, Attach(x.client, x.session, Some(log), Some(since), mode, force, now), x);
            var replay := Replay(log, since);
            replay <= told && forall y <- told[|replay|..] :: y.Control?
  {
  }

  lemma ServeFromIs(n: Net, now: string)
    requires n.up && n.requests != [] && n.requests[0].From?
    ensures var r := n.requests[0];
            var step := Attach(n.me.client, n.me.session, Some(n.log), Some(r.since), r.mode, r.force, now);
            Next(n, Serve(now)) == n.(broker := Apply(n.broker, step), requests := n.requests[1..],
                                      wire := n.wire + Notes(Told(n.broker, step, n.me)))
  {
  }

  lemma ServeFromKeepsInv(n: Net, now: string)
    requires Inv(n) && n.up && n.requests != [] && n.requests[0].From?
    ensures Inv(Next(n, Serve(now)))
  {
    var r := n.requests[0];
    var step := Attach(n.me.client, n.me.session, Some(n.log), Some(r.since), r.mode, r.force, now);
    ServeFromIs(n, now);
    ServeFromOnWire(n, step);
    ChannelAfterResume(n, Next(n, Serve(now)), r.since);
  }

  lemma ServeFromOnWire(n: Net, step: Step)
    requires Inv(n) && n.up && n.requests != [] && n.requests[0].From?
    requires step.Attach? && step.c == n.me.client && step.s == n.me.session
    requires step.log == Some(n.log) && step.since == Some(n.requests[0].since)
    ensures Sound(Apply(n.broker, step)) && n.me.client in Apply(n.broker, step).connected
    ensures var w := n.wire + Notes(Told(n.broker, step, n.me));
            && Chain(w, n.seen, Reach(n), n.log)
            && (Tail(w, n.seen) == |n.log| - 1
                || (Tail(w, n.seen) == Tail(n.wire, n.seen) && (n.requests[0].since >= |n.log| - 1 || |n.log| == 0)))
  {
    ApplyKeepsSound(n.broker, step);
    ResumeTells(n.broker, n.me, n.log, step.since.value, step.mode, step.force, step.now);
    ResumeExtendsChain(n, step.since.value, Told(n.broker, step, n.me));
  }

  lemma ChannelAfterResume(n: Net, m: Net, since: int)
    requires Inv(n) && n.up && n.requests != [] && n.requests[0].From? && n.requests[0].since == since
    requires m == n.(broker := m.broker, wire := m.wire, requests := n.requests[1..])
    requires Sound(m.broker) && n.me.client in m.broker.connected
    requires Chain(m.wire, n.seen, Reach(n), n.log)
    requires Tail(m.wire, n.seen) == |n.log| - 1 || (Tail(m.wire, n.seen) == Tail(n.wire, n.seen) && (since >= |n.log| - 1 || |n.log| == 0))
    ensures Inv(m)
  {
  }

  /** A replay from at or before the cursor keeps the chain and brings its end to the head of the log. */
  lemma ResumeExtendsChain(n: Net, since: int, told: seq<Notice>)
    requires Inv(n) && n.up && (n.phase == Live || n.phase == Gone)
    requires n.phase == Live ==> since <= n.handle.cursor
    requires Replay(n.log, since) <= told && forall y <- told[|Replay(n.log, since)|..] :: y.Control?
    ensures var w := n.wire + Notes(told);
            && Chain(w, n.seen, Reach(n), n.log)
            && (Tail(w, n.seen) == |n.log| - 1 || (Tail(w, n.seen) == Tail(n.wire, n.seen) && (since >= |n.log| - 1 || |n.log| == 0)))
  {
    var replay, k := Replay(n.log, since), ReplayStart(since, |n.log|);
    var rest, t := told[|replay|..], Tail(n.wire, n.seen);
    ReplayIsSuffix(n.log, since);
    ChainOfFeeds(n.log, k, t, Reach(n));
    ControlsAreTransparent(rest, Tail(Notes(replay), t), Reach(n), n.log);
    assert told == replay + rest;
    NotesAppend(replay, rest);
    ChainAppend(Notes(replay), Notes(rest), t, Reach(n), n.log);
    ChainAppend(n.wire, Notes(told), n.seen, Reach(n), n.log);
  }

  lemma ServeControlKeepsInv(n: Net, now: string)
    requires Inv(n) && n.up && n.requests != [] && (n.requests[0].Leave? || n.requests[0].Yield?)
    ensures Inv(Next(n, Serve(now)))
  {
    var r := n.requests[0];
    var step := if r.Leave? then Detach(n.me.client, n.me.session) else Release(n.me.client, n.me.session);
    var told := Told(n.broker, step, n.me);
    ApplyKeepsSound(n.broker, step);
    ChainAppend(n.wire, Notes(told), n.seen, Reach(n), n.log);
    ControlsAreTransparent(told, Tail(n.wire, n.seen), Reach(n), n.log);
  }

  lemma FlushKeepsInv(n: Net)
    requires Inv(n)
    ensures Inv(Next(n, Flush))
  {
    if n.up && n.reply.Some? {
      ChainAppend(n.wire, [Reply(n.reply.value)], n.seen, Reach(n), n.log);
    }
  }

  lemma AcceptKeepsDelivered(h: Handle, e: Event, log: seq<Event>)
    requires Delivered(h, log) && !h.detached && h.cursor < e.seq_ < |log| && log[e.seq_] == e
    requires h.delivered == [] || e.seq_ == h.cursor + 1
    ensures Delivered(Receive(h, e), log)
    ensures Complete(h, log) && e.seq_ == h.cursor + 1 ==> Complete(Receive(h, e), log)
  {
    assert log[..e.seq_ + 1] == log[..e.seq_] + [e];
  }

  lemma DispatchEventKeepsInv(n: Net, e: Event)
    requires Inv(n) && n.up && n.wire != [] && n.wire[0] == Note(Feed(e))
    ensures Inv(Next(n, Dispatch))
  {
    var m := Next(n, Dispatch);
    if n.phase == Live && e.seq_ > n.handle.cursor {
      AcceptKeepsDelivered(n.handle, e, n.log);
      ChainGrows(m.wire, e.seq_, n.handle.cursor, n.log, e.seq_, n.log);
    }
  }

  lemma DispatchOtherKeepsInv(n: Net)
    requires Inv(n) && n.up && n.wire != [] && (n.wire[0].Note? ==> n.wire[0].notice.Control?)
    ensures Inv(Next(n, Dispatch))
  {
  }

  lemma ServeKeepsInv(n: Net, now: string)
    requires Inv(n)
    ensures Inv(Next(n, Serve(now)))
  {
    if n.up && n.requests != [] {
      hide Inv;
      hide Next;
      match n.requests[0]
      case First(_, _) => ServeFirstKeepsInv(n, now);
      case From(_, _, _) => ServeFromKeepsInv(n, now);
      case Leave => ServeControlKeepsInv(n, now);
      case Yield => ServeControlKeepsInv(n, now);
    }
  }

  lemma DispatchKeepsInv(n: Net)
    requires Inv(n)
    ensures Inv(Next(n, Dispatch))
  {
    if n.up && n.wire != [] {
      hide Inv;
      hide Next;
      if n.wire[0].Note? && n.wire[0].notice.Feed? { DispatchEventKeepsInv(n, n.wire[0].notice.event); }
      else { DispatchOtherKeepsInv(n); }
    }
  }

  /** Moves of the client that put nothing on the wire. */
  lemma RequestKeepsInv(n: Net, move: Move)
    requires Inv(n) && (move.Ask? || move.Resume? || move.ReleaseControl?)
    ensures Inv(Next(n, move))
  {
    hide Contiguous;
    hide Complete;
    hide Delivered;
    hide Sound;
  }

  lemma DetachKeepsInv(n: Net)
    requires Inv(n)
    ensures Inv(Next(n, DetachHandle))
  {
    hide Sound;
    var m := Next(n, DetachHandle);
    if n.phase == Live {
      assert Delivered(m.handle, m.log) && (m.missed == 0 ==> Complete(m.handle, m.log));
      hide Delivered;
      hide Complete;
      hide Contiguous;
      if n.up { ChainGrows(n.wire, n.seen, n.handle.cursor, n.log, |n.log|, n.log); }
    }
  }

  lemma DropKeepsInv(n: Net)
    requires Inv(n)
    ensures Inv(Next(n, DropChannel))
  {
    hide Contiguous;
    hide Complete;
    hide Delivered;
    hide Sound;
  }

  lemma ReconnectKeepsInv(n: Net, client: ClientId)
    requires Inv(n)
    ensures Inv(Next(n, Reconnect(client)))
  {
    ApplyKeepsSound(n.broker, Connect(client));
    hide Contiguous;
    hide Complete;
  }

  lemma NextKeepsInv(n: Net, move: Move)
    requires Inv(n)
    ensures Inv(Next(n, move))
  {
    hide Inv;
    hide Next;
    match move
    case Append(kind, body) => AppendKeepsInv(n, kind, body);
    case Others(step) => OthersKeepInv(n, step);
    case Serve(now) => ServeKeepsInv(n, now);
    case Flush => FlushKeepsInv(n);
    case Dispatch => DispatchKeepsInv(n);
    case Subscribe => if n.phase.Answered? { ChainGrowsOnSubscribe(n); } else { assert Next(n, Subscribe) == n by { NoSubscribe(n); } }
    case DetachHandle => DetachKeepsInv(n);
    case DropChannel => DropKeepsInv(n);
    case Reconnect(client) => ReconnectKeepsInv(n, client);
    case _ => RequestKeepsInv(n, move);
  }

  lemma NoSubscribe(n: Net)
    requires !n.phase.Answered?
    ensures Next(n, Subscribe) == n
  {
  }

  lemma ChainGrowsOnSubscribe(n: Net)
    requires Inv(n) && n.phase.Answered?
    ensures Inv(Next(n, Subscribe))
  {
    if n.up { ChainGrows(n.wire, n.seen, -2, n.log, n.phase.last, n.log); }
  }

  // ---------------------------------------------------------------- what every run delivers

  /** Once subscribed, a handle stays live or gone, and its deliveries only grow. */
  lemma HandleStays(n: Net, move: Move)
    requires Inv(n) && (n.phase == Live || n.phase == Gone)
    ensures var m := Next(n, move);
            && (m.phase == Live || m.phase == Gone) && m.missed == n.missed && m.handle.initial == n.handle.initial
            && n.handle.delivered <= m.handle.delivered && n.handle.cursor <= m.handle.cursor
  {
    match move
    case Serve(now) =>
      if n.up && n.requests != [] { assert !n.requests[0].First?; }
    case _ =>
  }

  lemma {:induction false} RunKeepsInv(n: Net, moves: seq<Move>)
    requires Inv(n)
    ensures Inv(Run(n, moves))
    decreases |moves|
  {
    if moves != [] {
      NextKeepsInv(n, moves[0]);
      RunKeepsInv(Next(n, moves[0]), moves[1..]);
    }
  }

  /** What was delivered is never taken back or reordered. */
  lemma {:induction false} DeliveredOnlyGrows(n: Net, moves: seq<Move>)
    requires Inv(n) && (n.phase == Live || n.phase == Gone)
    ensures var z := Run(n, moves);
            && (z.phase == Live || z.phase == Gone) && z.missed == n.missed && z.handle.initial == n.handle.initial
            && n.handle.delivered <= z.handle.delivered && n.handle.cursor <= z.handle.cursor
    decreases |moves|
  {
    if moves != [] {
      NextKeepsInv(n, moves[0]);
      HandleStays(n, moves[0]);
      DeliveredOnlyGrows(Next(n, moves[0]), moves[1..]);
    }
  }

  /**
   Under every interleaving, the events a handle passed on are a contiguous
   stretch of the host log, in order, each once, ending at the cursor and
   starting after the attach result's head; and they are all of the log after
   that head unless events were dispatched before the handle was subscribed.
   */
  lemma DeliveredIsContiguous(n: Net, moves: seq<Move>)
    requires Initial(n)
    ensures var z := Run(n, moves);
            z.phase == Live || z.phase == Gone ==>
              && -1 <= z.handle.initial <= z.handle.cursor < |z.log|
              && |z.handle.delivered| <= z.handle.cursor - z.handle.initial
              && z.handle.delivered == z.log[z.handle.cursor + 1 - |z.handle.delivered|..z.handle.cursor + 1]
              && (z.missed == 0 ==> z.handle.delivered == z.log[z.handle.initial + 1..z.handle.cursor + 1])
  {
    hide Channel;
    hide Next;
    hide Sound;
    RunKeepsInv(n, moves);
  }

  // ---------------------------------------------------------------- what a served request does

  /** Nobody else holds control of the session, or it is taken by force, or not asked for. */
  predicate Granted(n: Net, mode: Mode, force: bool) {
    mode == Read || force || Holder(n.broker, n.me.session) in {None, Some(n.me.client)}
  }

  /** What an attach by the connected client makes of its attachment and of control. */
  lemma AttachGrants(n: Net, since: Option<int>, mode: Mode, force: bool, now: string)
    requires n.me.client in n.broker.connected
    ensures var v := Apply(n.broker, Attach(n.me.client, n.me.session, Some(n.log), since, mode, force, now));
            var r := AttachOutcome(n.broker, n.me, Some(n.log), mode, force);
            && (n.me in v.attached <==> Granted(n, mode, force)) && (r.Attached? <==> Granted(n, mode, force))
            && (r.Attached? ==> r.lastSeq == |n.log| - 1)
            && (Holder(v, n.me.session) == Some(n.me.client) <==>
                  (mode == Write && Granted(n, mode, force)) || Holder(n.broker, n.me.session) == Some(n.me.client))
  {
  }

  lemma ServeControlDoes(n: Net, now: string)
    requires n.up && n.requests != [] && (n.requests[0].Leave? || n.requests[0].Yield?)
    ensures var r, z := n.requests[0], Next(n, Serve(now));
            && z.requests == n.requests[1..] && z.log == n.log && z.handle == n.handle && n.wire <= z.wire
            && Holder(z.broker, n.me.session) != Some(n.me.client)
            && (r.Leave? ==> n.me !in z.broker.attached) && (r.Yield? ==> z.broker.attached == n.broker.attached)
  {
    hide Told;
  }

  lemma ServeFromDoes(n: Net, now: string)
    requires n.me.client in n.broker.connected && n.up && n.requests != [] && n.requests[0].From?
    ensures var r, z := n.requests[0], Next(n, Serve(now));
            && z.requests == n.requests[1..] && z.log == n.log && z.handle == n.handle && n.wire <= z.wire
            && (n.me in z.broker.attached <==> Granted(n, r.mode, r.force))
            && (Holder(z.broker, n.me.session) == Some(n.me.client) <==>
                  (r.mode == Write && Granted(n, r.mode, r.force)) || Holder(n.broker, n.me.session) == Some(n.me.client))
            && Notes(Replay(n.log, r.since)) <= z.wire[|n.wire|..]
  {
    hide Next;
    hide Apply;
    hide Told;
    hide AttachOutcome;
    hide Granted;
    var r := n.requests[0];
    ServeFromIs(n, now);
    AttachGrants(n, Some(r.since), r.mode, r.force, now);
    ResumeTells(n.broker, n.me, n.log, r.since, r.mode, r.force, now);
  }

  lemma ServeFirstDoes(n: Net, now: string)
    requires n.me.client in n.broker.connected && n.up && n.requests != [] && n.requests[0].First?
    requires n.phase == Asking && n.reply.None?
    ensures var r, z := n.requests[0], Next(n, Serve(now));
            && z.requests == n.requests[1..] && z.log == n.log && z.handle == n.handle && n.wire <= z.wire
            && (n.me in z.broker.attached <==> Granted(n, r.mode, r.force))
            && (z.reply == if Granted(n, r.mode, r.force) then Some(|n.log| - 1) else None)
            && (z.phase == Idle <==> !Granted(n, r.mode, r.force))
  {
    hide Next;
    hide Apply;
    hide Told;
    hide AttachOutcome;
    hide Granted;
    var r := n.requests[0];
    ServeFirstIs(n, now);
    AttachGrants(n, None, r.mode, r.force, now);
  }

  /**
   Serving the oldest request: a detach leaves the client neither attached nor
   holder; a release leaves it attached but not holder; a re-attach or an
   escalation attaches it exactly if it is granted, and replays what lies behind
   the seq it named; a first attach is answered with the head of the log.
   */
  lemma ServedRequestDoes(n: Net, now: string)
    requires Inv(n) && n.up && n.requests != []
    ensures var r, z := n.requests[0], Next(n, Serve(now));
            && z.requests == n.requests[1..] && z.log == n.log && z.handle == n.handle && n.wire <= z.wire
            && (r.Leave? || r.Yield? ==> Holder(z.broker, n.me.session) != Some(n.me.client))
            && (r.Leave? ==> n.me !in z.broker.attached)
            && (r.Yield? ==> z.broker.attached == n.broker.attached)
            && (r.From? || r.First? ==> (n.me in z.broker.attached <==> Granted(n, r.mode, r.force)))
            && (r.From? ==>
                  && (Holder(z.broker, n.me.session) == Some(n.me.client) <==>
                        (r.mode == Write && Granted(n, r.mode, r.force)) || Holder(n.broker, n.me.session) == Some(n.me.client))
                  && Notes(Replay(n.log, r.since)) <= z.wire[|n.wire|..])
            && (r.First? ==>
                  && (z.reply == if Granted(n, r.mode, r.force) then Some(|n.log| - 1) else None)
                  && (z.phase == Idle <==> !Granted(n, r.mode, r.force)))
  {
    hide Next;
    hide Granted;
    match n.requests[0]
    case First(_, _) =>
      FirstIsAsked(n);
      ServeFirstDoes(n, now);
    case From(_, _, _) => ServeFromDoes(n, now);
    case _ => ServeControlDoes(n, now);
  }

  lemma FirstIsAsked(n: Net)
    requires Inv(n) && n.up && n.requests != [] && n.requests[0].First?
    ensures n.phase == Asking && n.reply.None? && n.me.client in n.broker.connected
  {
  }

  /** What a handle asks for: each of its calls queues the one request it stands for, behind those not served yet. */
  lemma CallsAsk(n: Net, mode: Mode, force: bool, since: int)
    requires Inv(n) && n.up
    ensures n.phase == Idle ==> Next(n, Ask(mode, force)).requests == [First(mode, force)] && Next(n, Ask(mode, force)).phase == Asking
    ensures n.phase == Live && since <= n.handle.cursor ==>
              Next(n, Resume(since, mode, force)) == n.(requests := n.requests + [From(since, mode, force)])
    ensures n.phase == Live ==> Next(n, ReleaseControl) == n.(requests := n.requests + [Yield])
    ensures n.phase == Live ==>
              var z := Next(n, DetachHandle);
              z.requests == n.requests + [Leave] && z.phase == Gone && z.handle.detached && z.handle.delivered == n.handle.delivered
  {
  }

  /**
   What the surroundings do: the host's events and the other clients' steps reach
   the broker and, while the channel is up, this client; a dropped channel loses
   everything in flight; a reconnect is a new client of the same handle.
   */
  lemma SurroundingsMove(n: Net, kind: string, body: Body, step: Step, client: ClientId)
    ensures var z := Next(n, Append(kind, body)); z.log == n.log + [Event(|n.log|, kind, body)] && z.handle == n.handle
    ensures Actor(step) != Some(n.me.client) && !step.HostEvent? ==>
              Next(n, Others(step)) == n.(broker := Apply(n.broker, step), wire := if n.up then n.wire + Notes(Told(n.broker, step, n.me)) else [])
    ensures !n.up && !step.HostEvent? ==> Next(n, Others(step)).broker == Apply(n.broker, step)
    ensures var z := Next(n, DropChannel);
            !z.up && z.me == n.me && z.wire == [] && z.requests == [] && z.reply.None? && z.handle == n.handle && z.broker == n.broker && z.log == n.log
            && z.phase == if n.phase == Asking then Idle else n.phase
    ensures !n.up && client !in n.broker.connected && !n.phase.Answered? ==>
              var z := Next(n, Reconnect(client));
              z.up && z.me == Key(client, n.me.session) && client in z.broker.connected && z.seen == n.handle.cursor
              && z.handle == n.handle && z.log == n.log && z.phase == n.phase && z.wire == n.wire && z.requests == n.requests
  {
  }

  // ---------------------------------------------------------------- what is in flight is all that is missing

  /** Dispatching everything in flight to an attached handle no event has overtaken brings it to the end of the log. */
  lemma {:induction false} DispatchingCatchesUp(n: Net)
    requires Inv(n) && n.up && n.phase == Live && n.me in n.broker.attached && n.seen <= n.handle.cursor
    ensures -1 <= n.handle.cursor < |n.log|
    ensures var z := Run(n, DispatchAll(|n.wire|));
            z.wire == [] && z.log == n.log && z.handle.delivered == n.handle.delivered + n.log[n.handle.cursor + 1..]
    decreases |n.wire|
  {
    hide Inv;
    hide Next;
    if n.wire == [] {
      NothingLeft(n);
    } else {
      var m := Next(n, Dispatch);
      NextKeepsInv(n, Dispatch);
      DispatchOne(n);
      assert DispatchAll(|n.wire|)[1..] == DispatchAll(|m.wire|);
      DispatchingCatchesUp(m);
    }
  }

  lemma NothingLeft(n: Net)
    requires Inv(n) && n.up && n.phase == Live && n.me in n.broker.attached && n.seen <= n.handle.cursor && n.wire == []
    ensures n.handle.cursor == |n.log| - 1 >= -1
  {
  }

  lemma HeadFollows(n: Net)
    requires Inv(n) && n.up && n.phase == Live && n.seen <= n.handle.cursor && n.wire != []
    ensures -1 <= n.handle.cursor < |n.log| && !n.handle.detached
    ensures n.wire[0].Note? && n.wire[0].notice.Feed? ==>
              var e := n.wire[0].notice.event; 0 <= e.seq_ < |n.log| && n.log[e.seq_] == e && e.seq_ <= n.handle.cursor + 1
  {
  }

  lemma DispatchOne(n: Net)
    requires Inv(n) && n.up && n.phase == Live && n.me in n.broker.attached && n.seen <= n.handle.cursor && n.wire != []
    ensures var m := Next(n, Dispatch);
            && m.log == n.log && m.wire == n.wire[1..] && m.up && m.phase == Live && m.me in m.broker.attached && m.seen <= m.handle.cursor
            && -1 <= n.handle.cursor <= m.handle.cursor < |n.log|
            && n.handle.delivered + n.log[n.handle.cursor + 1..] == m.handle.delivered + n.log[m.handle.cursor + 1..]
  {
    HeadFollows(n);
    DispatchIs(n);
    hide Inv;
    hide Next;
    var m := Next(n, Dispatch);
    if m.handle != n.handle { OneFurther(n.log, n.handle.delivered, n.handle.cursor); }
  }

  lemma DispatchIs(n: Net)
    requires n.up && n.wire != []
    ensures Next(n, Dispatch) == DispatchMessage(n.(wire := n.wire[1..]), n.wire[0])
  {
    hide DispatchMessage;
  }

  lemma OneFurther(log: seq<Event>, delivered: seq<Event>, k: int)
    requires -1 <= k < |log| - 1
    ensures delivered + log[k + 1..] == (delivered + [log[k + 1]]) + log[k + 2..]
  {
  }

  /** The moves by which a handle comes back after its channel dropped. */
  function ComeBack(n: Net, client: ClientId, now: string): seq<Move> {
    [DropChannel, Reconnect(client), Resume(n.handle.cursor, Read, false), Serve(now)]
  }

  /**
   From every reachable state of a live handle: when its channel drops, whatever
   was in flight, a reconnect as a new client and a re-attach from the cursor
   lose nothing and repeat nothing. Once the replay is dispatched the handle has
   delivered the whole log behind its cursor.
   */
  lemma RecoversAfterDrop(n: Net, client: ClientId, now: string)
    requires Inv(n) && n.phase == Live && client !in n.broker.connected
    ensures var m := Run(n, ComeBack(n, client, now));
            var z := Run(m, DispatchAll(|m.wire|));
            && -1 <= n.handle.cursor < |n.log| && m.up && m.me == Key(client, n.me.session) && m.me in m.broker.attached
            && z.wire == [] && z.log == n.log && z.handle.delivered == n.handle.delivered + n.log[n.handle.cursor + 1..]
  {
    hide Inv;
    hide Next;
    hide Run;
    hide Apply;
    hide Chain;
    var a := Next(n, DropChannel);
    var b := Next(a, Reconnect(client));
    var c := Next(b, Resume(n.handle.cursor, Read, false));
    var d := Next(c, Serve(now));
    NextKeepsInv(n, DropChannel);
    NextKeepsInv(a, Reconnect(client));
    NextKeepsInv(b, Resume(n.handle.cursor, Read, false));
    NextKeepsInv(c, Serve(now));
    FourMoves(n, DropChannel, Reconnect(client), Resume(n.handle.cursor, Read, false), Serve(now));
    SurroundingsMove(n, "", NO_BODY, Connect(client), client);
    SurroundingsMove(a, "", NO_BODY, Connect(client), client);
    CallsAsk(b, Read, false, n.handle.cursor);
    ServedRequestDoes(c, now);
    ServeKeepsPlace(c, now);
    DispatchingCatchesUp(d);
  }

  lemma FourMoves(n: Net, a: Move, b: Move, c: Move, d: Move)
    ensures Run(n, [a, b, c, d]) == Next(Next(Next(Next(n, a), b), c), d)
  {
    var m := Next(Next(Next(n, a), b), c);
    assert Run(m, [d]) == Next(m, d) by { assert [d][1..] == []; }
    assert [c, d][1..] == [d] && [b, c, d][1..] == [c, d] && [a, b, c, d][1..] == [b, c, d];
    assert Run(Next(Next(n, a), b), [c, d]) == Run(m, [d]);
    assert Run(Next(n, a), [b, c, d]) == Run(Next(Next(n, a), b), [c, d]);
  }

  lemma ServeKeepsPlace(n: Net, now: string)
    requires n.up && n.requests != [] && n.requests[0].From?
    ensures var z := Next(n, Serve(now)); z.up && z.phase == n.phase && z.me == n.me && z.seen == n.seen && z.handle == n.handle
  {
    ServeFromIs(n, now);
  }

  /** A live handle that missed nothing, over a connection that is up and attached. */
  ghost predicate Following(n: Net) {
    n.up && n.phase == Live && n.me in n.broker.attached && n.missed == 0
  }

  /** With nothing in flight, everything the log holds behind the attach head has been delivered. */
  lemma NothingInFlightIsComplete(n: Net)
    requires Inv(n) && Following(n) && n.wire == []
    ensures -1 <= n.handle.initial < |n.log|
    ensures n.handle.delivered == n.log[n.handle.initial + 1..]
  {
  }

  /** The moves that dispatch everything in flight. */
  function DispatchAll(k: nat): seq<Move> {
    seq(k, _ => Dispatch)
  }

  lemma {:induction false} DispatchingDelivers(n: Net)
    requires Inv(n) && Following(n)
    ensures -1 <= n.handle.initial < |n.log|
    ensures var z := Run(n, DispatchAll(|n.wire|));
            z.wire == [] && z.log == n.log && z.handle.initial == n.handle.initial && z.handle.delivered == n.log[n.handle.initial + 1..]
    decreases |n.wire|
  {
    if n.wire == [] {
      NothingInFlightIsComplete(n);
    } else {
      var m := Next(n, Dispatch);
      assert DispatchAll(|n.wire|)[1..] == DispatchAll(|m.wire|);
      NextKeepsInv(n, Dispatch);
      assert m.handle.initial == n.handle.initial;
      DispatchingDelivers(m);
    }
  }

  /**
   In every run, whatever happened in it: a handle that follows its session and
   missed nothing has delivered everything once what is in flight is dispatched.
   */
  lemma InFlightIsAllThatIsMissing(n: Net, moves: seq<Move>)
    requires Initial(n) && Following(Run(n, moves))
    ensures var m := Run(n, moves);
            var z := Run(m, DispatchAll(|m.wire|));
            && -1 <= m.handle.initial < |m.log|
            && z.wire == [] && z.log == m.log && z.handle.delivered == m.log[m.handle.initial + 1..]
            && (m.wire == [] ==> m.handle.delivered == m.log[m.handle.initial + 1..])
  {
    InitialHolds(n);
    RunKeepsInv(n, moves);
    hide Inv;
    hide Run;
    var m := Run(n, moves);
    DispatchingDelivers(m);
    if m.wire == [] { NothingInFlightIsComplete(m); }
  }

  lemma InitialHolds(n: Net)
    requires Initial(n)
    ensures Inv(n)
  {
  }
}
