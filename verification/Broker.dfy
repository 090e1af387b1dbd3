/**
 The daemon-side session broker: attachments, the write-control lease and the
 notifications they cause (packages/remote-backend/src/broker.ts).

 `View` is the broker as its users see it: one relation of attachments and one
 lease per session. Each operation is a step; `Apply` gives the view after it
 and `Told` what it sends on each client's stream of each session. The class in
 BrokerService keeps four maps and the host's subscriptions instead, and is
 proved to follow these two functions.
 */
module Broker {
  import opened Wrappers

  type ClientId = string
  type SessionId = string

  /** What an event carries besides its place and type; it crosses the broker verbatim. */
  datatype Body = Body(data: Option<string>, surfaceOp: Option<string>, sourceSeqs: Option<seq<int>>)
  datatype Event = Event(seq_: int, kind: string, body: Body)
  datatype Reason = Acquired | Released | Preempted | Disconnected
  datatype Notice = Control(holder: Option<ClientId>, reason: Reason) | Feed(event: Event)
  datatype Lease = Lease(holderId: ClientId, attachedAt: string)
  datatype Mode = Read | Write

  /** One client's view of one session: the unit of attachment and of notification order. */
  datatype Key = Key(client: ClientId, session: SessionId)

  datatype View = View(
    connected: set<ClientId>,
    attached: set<Key>,
    leases: map<SessionId, Lease>)

  datatype Step =
    | Connect(c: ClientId)
    | Disconnect(c: ClientId)
    | Attach(c: ClientId, s: SessionId, log: Option<seq<Event>>, since: Option<int>,
             mode: Mode, force: bool, now: string)
    | Detach(c: ClientId, s: SessionId)
    | Release(c: ClientId, s: SessionId)
    | HostEvent(s: SessionId, e: Event)

  datatype AttachResult =
    | Attached(holder: Option<ClientId>, lastSeq: int)
    | UnknownClient
    | UnknownSession
    | Locked(holderId: ClientId, attachedAt: string)

  function Holder(v: View, s: SessionId): Option<ClientId> {
    if s in v.leases then Some(v.leases[s].holderId) else None
  }

  function Held(v: View, c: ClientId): set<SessionId> {
    set s <- v.leases | v.leases[s].holderId == c
  }

  /** The replay of `session.attach`: log entries strictly after `since`, as notices. */
  function Replay(log: seq<Event>, since: int): seq<Notice> {
    if log == [] then []
    else (if log[0].seq_ > since then [Feed(log[0])] else []) + Replay(log[1..], since)
  }

  /** What an attach of `k` answers, decided on the view before it. */
  function AttachOutcome(v: View, k: Key, log: Option<seq<Event>>, mode: Mode, force: bool): AttachResult {
    if k.client !in v.connected then UnknownClient
    else if log.None? then UnknownSession
    else if mode == Read || Holder(v, k.session) == Some(k.client) then Attached(Holder(v, k.session), |log.value| - 1)
    else if k.session in v.leases && !force then
      Locked(v.leases[k.session].holderId, v.leases[k.session].attachedAt)
    else Attached(Some(k.client), |log.value| - 1)
  }

  /** Does this attach hand the lease to a new holder? */
  predicate TakesLease(v: View, k: Key, r: AttachResult, mode: Mode) {
    mode == Write && r.Attached? && Holder(v, k.session) != Some(k.client)
  }

  /** The view after an attach: refused write attaches leave the client detached. */
  function AfterAttach(v: View, k: Key, r: AttachResult, mode: Mode, now: string): View {
    match r
    case UnknownClient => v
    case UnknownSession => v
    case Locked(_, _) => v.(attached := v.attached - {k})
    case Attached(_, _) =>
      View(v.connected, v.attached + {k},
           if TakesLease(v, k, r, mode) then v.leases[k.session := Lease(k.client, now)] else v.leases)
  }

  function Apply(v: View, step: Step): View {
    match step
    case Connect(c) => v.(connected := v.connected + {c})
    case Disconnect(c) =>
      View(v.connected - {c}, (set k <- v.attached | k.client != c), v.leases - Held(v, c))
    case Attach(c, s, log, since, mode, force, now) =>
      AfterAttach(v, Key(c, s), AttachOutcome(v, Key(c, s), log, mode, force), mode, now)
    case Detach(c, s) =>
      View(v.connected, v.attached - {Key(c, s)}, if Holder(v, s) == Some(c) then v.leases - {s} else v.leases)
    case Release(c, s) => if Holder(v, s) == Some(c) then v.(leases := v.leases - {s}) else v
    case HostEvent(s, e) => v
  }

  /** What the attach of `k` sends on stream `x`: the replay to the client, then any change of holder to all attached. */
  function AttachTells(v: View, k: Key, log: Option<seq<Event>>, since: Option<int>, mode: Mode, r: AttachResult, x: Key): seq<Notice> {
    (if x == k && (r.Attached? || r.Locked?) && log.Some? && since.Some? then Replay(log.value, since.value) else [])
    + (if TakesLease(v, k, r, mode) && x.session == k.session && (x == k || x in v.attached)
       then [Control(Some(k.client), if k.session in v.leases then Preempted else Acquired)] else [])
  }

  /** What `step` sends on stream `x`, in order. */
  function Told(v: View, step: Step, x: Key): seq<Notice> {
    match step
    case Connect(c) => []
    case Disconnect(c) =>
      if x in v.attached && x.client != c && Holder(v, x.session) == Some(c) then [Control(None, Disconnected)] else []
    case Attach(c, s, log, since, mode, force, now) =>
      AttachTells(v, Key(c, s), log, since, mode, AttachOutcome(v, Key(c, s), log, mode, force), x)
    case Detach(c, s) =>
      if x in v.attached && x.session == s && Holder(v, s) == Some(c) then [Control(None, Released)] else []
    case Release(c, s) =>
      if x in v.attached && x.session == s && Holder(v, s) == Some(c) then [Control(None, Released)] else []
    case HostEvent(s, e) =>
      if x in v.attached && x.session == s then [Feed(e)] else []
  }

  // ---------------------------------------------------------------- runs

  function Run(v: View, steps: seq<Step>): View
    decreases |steps|
  {
    if steps == [] then v else Run(Apply(v, steps[0]), steps[1..])
  }

  /** Everything a run sends on stream `x`. */
  function Stream(v: View, steps: seq<Step>, x: Key): seq<Notice>
    decreases |steps|
  {
    if steps == [] then [] else Told(v, steps[0], x) + Stream(Apply(v, steps[0]), steps[1..], x)
  }

  const EMPTY := View({}, {}, map[])

  /** Every attachment is of a connected client and every lease holder is attached. */
  ghost predicate Sound(v: View) {
    && (forall k <- v.attached :: k.client in v.connected)
    && (forall s <- v.leases :: Key(v.leases[s].holderId, s) in v.attached)
  }

  lemma ApplyKeepsSound(v: View, step: Step)
    requires Sound(v)
    ensures Sound(Apply(v, step))
  {
  }

  /** In every state reached from the empty broker each lease holder is connected and attached to its session. */
  lemma HoldersAreAttached(steps: seq<Step>, s: SessionId)
    ensures var v := Run(EMPTY, steps);
            Holder(v, s).Some? ==> Holder(v, s).value in v.connected && Key(Holder(v, s).value, s) in v.attached
  {
    SoundThroughout(EMPTY, steps);
  }

  lemma {:induction false} SoundThroughout(v: View, steps: seq<Step>)
    requires Sound(v)
    ensures Sound(Run(v, steps))
    decreases |steps|
  {
    if steps != [] {
      ApplyKeepsSound(v, steps[0]);
      SoundThroughout(Apply(v, steps[0]), steps[1..]);
    }
  }

  // ---------------------------------------------------------------- what clients learn

  /** The holder a client believes in after reading `ns`, starting from `h`. */
  function Fold(h: Option<ClientId>, ns: seq<Notice>): Option<ClientId>
    decreases |ns|
  {
    if ns == [] then h
    else Fold(if ns[0].Control? then ns[0].holder else h, ns[1..])
  }

  lemma {:induction false} FoldAppend(h: Option<ClientId>, a: seq<Notice>, b: seq<Notice>)
    ensures Fold(h, a + b) == Fold(Fold(h, a), b)
    decreases |a|
  {
    if a == [] {
      assert a + b == b;
    } else {
      assert (a + b)[1..] == a[1..] + b;
      FoldAppend(if a[0].Control? then a[0].holder else h, a[1..], b);
    }
  }

  lemma {:induction false} ReplayHasNoControl(log: seq<Event>, since: int, h: Option<ClientId>)
    ensures Fold(h, Replay(log, since)) == h
  {
    if log != [] {
      var head := if log[0].seq_ > since then [Feed(log[0])] else [];
      ReplayHasNoControl(log[1..], since, h);
      FoldAppend(h, head, Replay(log[1..], since));
    }
  }

  lemma {:induction false} ReplayAppend(a: seq<Event>, b: seq<Event>, since: int)
    ensures Replay(a + b, since) == Replay(a, since) + Replay(b, since)
  {
    if a == [] {
      assert a + b == b;
    } else {
      assert (a + b)[1..] == a[1..] + b;
      ReplayAppend(a[1..], b, since);
    }
  }

  lemma AttachFolds(v: View, k: Key, log: Option<seq<Event>>, since: Option<int>, mode: Mode, force: bool, now: string, x: Key, h: Option<ClientId>)
    requires x in AfterAttach(v, k, AttachOutcome(v, k, log, mode, force), mode, now).attached
    ensures var r := AttachOutcome(v, k, log, mode, force);
            var w := AfterAttach(v, k, r, mode, now);
            Fold(h, AttachTells(v, k, log, since, mode, r, x))
              == if TakesLease(v, k, r, mode) && x.session == k.session then Holder(w, x.session) else h
  {
    var r := AttachOutcome(v, k, log, mode, force);
    var replay := if x == k && (r.Attached? || r.Locked?) && log.Some? && since.Some? then Replay(log.value, since.value) else [];
    var change := if TakesLease(v, k, r, mode) && x.session == k.session && (x == k || x in v.attached)
                  then [Control(Some(k.client), if k.session in v.leases then Preempted else Acquired)] else [];
    FoldAppend(h, replay, change);
    if replay != [] { ReplayHasNoControl(log.value, since.value, h); }
  }

  lemma StepFolds(v: View, step: Step, x: Key)
    requires x in v.attached && x in Apply(v, step).attached
    ensures Fold(Holder(v, x.session), Told(v, step, x)) == Holder(Apply(v, step), x.session)
  {
    match step {
      case Attach(c, s, log, since, mode, force, now) =>
        AttachFolds(v, Key(c, s), log, since, mode, force, now, x, Holder(v, x.session));
      case _ =>
    }
  }

  ghost predicate AttachedThroughout(v: View, steps: seq<Step>, x: Key)
    decreases |steps|
  {
    x in v.attached && (steps != [] ==> AttachedThroughout(Apply(v, steps[0]), steps[1..], x))
  }

  /**
   For a client attached to a session throughout a run, folding the notices it
   was sent over the holder at the start yields the holder at the end.
   */
  lemma {:induction false} NoticesDetermineHolder(v: View, steps: seq<Step>, x: Key)
    requires AttachedThroughout(v, steps, x)
    ensures Fold(Holder(v, x.session), Stream(v, steps, x)) == Holder(Run(v, steps), x.session)
    decreases |steps|
  {
    if steps != [] {
      var w := Apply(v, steps[0]);
      StepFolds(v, steps[0], x);
      NoticesDetermineHolder(w, steps[1..], x);
      FoldAppend(Holder(v, x.session), Told(v, steps[0], x), Stream(w, steps[1..], x));
    }
  }

  /**
   A client that attaches and stays attached: from the holder the attach
   returned, the notices it was sent from the attach on (the attach's own
   included) always lead to the current holder.
   */
  lemma HolderKnownSinceAttach(v: View, attach: Step, later: seq<Step>)
    requires attach.Attach?
    requires AttachOutcome(v, Key(attach.c, attach.s), attach.log, attach.mode, attach.force).Attached?
    requires AttachedThroughout(Apply(v, attach), later, Key(attach.c, attach.s))
    ensures var x := Key(attach.c, attach.s);
            var r := AttachOutcome(v, x, attach.log, attach.mode, attach.force);
            && r.holder == Holder(Apply(v, attach), attach.s)
            && (attach.mode == Write ==> r.holder == Some(attach.c))
            && Fold(r.holder, Told(v, attach, x) + Stream(Apply(v, attach), later, x))
                 == Holder(Run(Apply(v, attach), later), attach.s)
  {
    var x := Key(attach.c, attach.s);
    var r := AttachOutcome(v, x, attach.log, attach.mode, attach.force);
    AttachFolds(v, x, attach.log, attach.since, attach.mode, attach.force, attach.now, x, r.holder);
    FoldAppend(r.holder, Told(v, attach, x), Stream(Apply(v, attach), later, x));
    NoticesDetermineHolder(Apply(v, attach), later, x);
  }

  /**
   A refused write attach is not a no-op: the client is sent the replay, and
   ends up detached even if it was attached before.
   */
  lemma RefusedAttachDetaches(v: View, attach: Step)
    requires attach.Attach?
    requires AttachOutcome(v, Key(attach.c, attach.s), attach.log, attach.mode, attach.force).Locked?
    ensures Apply(v, attach).attached == v.attached - {Key(attach.c, attach.s)}
    ensures Apply(v, attach).leases == v.leases
    ensures Sound(v) ==> AttachOutcome(v, Key(attach.c, attach.s), attach.log, attach.mode, attach.force).holderId != attach.c
  {
  }

  // ---------------------------------------------------------------- who may change what

  /** A forced write attach by another connected client, to a session that is live. */
  predicate Preempts(connected: set<ClientId>, step: Step, s: SessionId, a: ClientId) {
    step.Attach? && step.s == s && step.c != a && step.c in connected && step.log.Some? && step.mode == Write && step.force
  }

  /** The steps that end `a`'s lease of `s`: its own release, detach or disconnect, or a preemption. */
  predicate EndsLease(connected: set<ClientId>, step: Step, s: SessionId, a: ClientId) {
    step == Release(a, s) || step == Detach(a, s) || step == Disconnect(a) || Preempts(connected, step, s, a)
  }

  /** Exactly those steps end a lease: nobody else can end it otherwise, and each of them does. */
  lemma LeaseEndsIff(v: View, step: Step, s: SessionId, a: ClientId)
    requires Holder(v, s) == Some(a)
    ensures Holder(Apply(v, step), s) != Some(a) <==> EndsLease(v.connected, step, s, a)
    ensures EndsLease(v.connected, step, s, a) ==>
              Holder(Apply(v, step), s) == if step.Attach? then Some(step.c) else None
    ensures !EndsLease(v.connected, step, s, a) ==> s in Apply(v, step).leases && Apply(v, step).leases[s] == v.leases[s]
  {
  }

  /** A lease is gained exactly by a write attach of a connected client to a live session that is free or taken by force. */
  lemma LeaseIsTakenIff(v: View, step: Step, s: SessionId, a: ClientId)
    requires Holder(v, s) != Some(a)
    ensures Holder(Apply(v, step), s) == Some(a) <==>
              && step.Attach? && step.s == s && step.c == a && a in v.connected && step.log.Some? && step.mode == Write
              && (Holder(v, s).Some? ==> step.force)
    ensures Holder(Apply(v, step), s) == Some(a) ==> Apply(v, step).leases[s] == Lease(a, step.now)
  {
  }

  /** A release by anyone but the holder is without effect on the view and on every stream. */
  lemma ForeignReleaseIsSilent(v: View, c: ClientId, s: SessionId, x: Key)
    requires Holder(v, s) != Some(c)
    ensures Apply(v, Release(c, s)) == v && Told(v, Release(c, s), x) == []
  {
  }

  ghost predicate HeldThroughout(v: View, steps: seq<Step>, s: SessionId, a: ClientId)
    decreases |steps|
  {
    Holder(v, s) == Some(a) && (steps != [] ==> HeldThroughout(Apply(v, steps[0]), steps[1..], s, a))
  }

  /** The first step that ends a lease in a run, from the connections at that moment. */
  ghost predicate EndsSomewhere(v: View, steps: seq<Step>, s: SessionId, a: ClientId)
    decreases |steps|
  {
    steps != [] && (EndsLease(v.connected, steps[0], s, a) || EndsSomewhere(Apply(v, steps[0]), steps[1..], s, a))
  }

  /**
   Over every run: a lease is held, and by the grant it was taken with, until
   the first step that is its holder's release, detach or disconnect or a
   preemption, and no longer.
   */
  lemma {:induction false} LeaseLastsUntilEnded(v: View, steps: seq<Step>, s: SessionId, a: ClientId)
    requires Holder(v, s) == Some(a)
    ensures HeldThroughout(v, steps, s, a) <==> !EndsSomewhere(v, steps, s, a)
    ensures !EndsSomewhere(v, steps, s, a) ==> s in Run(v, steps).leases && Run(v, steps).leases[s] == v.leases[s]
    decreases |steps|
  {
    if steps != [] {
      LeaseEndsIff(v, steps[0], s, a);
      hide Apply;
      hide EndsLease;
      if !EndsLease(v.connected, steps[0], s, a) { LeaseLastsUntilEnded(Apply(v, steps[0]), steps[1..], s, a); }
      else { assert !HeldThroughout(Apply(v, steps[0]), steps[1..], s, a); }
    }
  }

  /** What an attach answers, in terms of who is connected, what is live and who holds control. */
  lemma AttachDecides(v: View, k: Key, log: Option<seq<Event>>, mode: Mode, force: bool)
    ensures var r := AttachOutcome(v, k, log, mode, force);
            var known := k.client in v.connected && log.Some?;
            var others := Holder(v, k.session).Some? && Holder(v, k.session).value != k.client;
            && (r == UnknownClient <==> k.client !in v.connected)
            && (r == UnknownSession <==> k.client in v.connected && log.None?)
            && (r.Locked? <==> known && mode == Write && others && !force)
            && (r.Locked? ==> Holder(v, k.session) == Some(r.holderId) && r.attachedAt == v.leases[k.session].attachedAt)
            && (r.Attached? <==> known && (mode == Read || !others || force))
            && (r.Attached? ==> r.lastSeq == |log.value| - 1 && r.holder == if mode == Write then Some(k.client) else Holder(v, k.session))
  {
  }

  /** Attachments begin with a granted attach, and end with a detach, a disconnect or a refused write attach. */
  lemma AttachmentsChange(v: View, step: Step, x: Key)
    ensures var granted := step.Attach? && x == Key(step.c, step.s) && AttachOutcome(v, x, step.log, step.mode, step.force).Attached?;
            var refused := step.Attach? && x == Key(step.c, step.s) && AttachOutcome(v, x, step.log, step.mode, step.force).Locked?;
            x in Apply(v, step).attached <==>
              granted || (x in v.attached && !refused && step != Detach(x.client, x.session) && step != Disconnect(x.client))
    ensures forall c :: c in Apply(v, step).connected <==> step == Connect(c) || (c in v.connected && step != Disconnect(c))
  {
  }

  /**
   Exactly what a step sends on stream `x`: feeds, namely the replay an attach
   asked for or the event itself, and then one notice if the holder of its
   session changed, to everyone attached before or by the step but a client
   that is going away.
   */
  lemma ToldExactly(v: View, step: Step, x: Key)
    ensures var before, after := Holder(v, x.session), Holder(Apply(v, step), x.session);
            var hears := (x in v.attached || x in Apply(v, step).attached) && step != Disconnect(x.client);
            var feeds :=
              if step.HostEvent? && x in v.attached && x.session == step.s then [Feed(step.e)]
              else if step.Attach? && x == Key(step.c, step.s) && x.client in v.connected && step.log.Some? && step.since.Some?
              then Replay(step.log.value, step.since.value)
              else [];
            var reason := if step.Disconnect? then Disconnected else if !step.Attach? then Released else if before.None? then Acquired else Preempted;
            Told(v, step, x) == feeds + (if before != after && hears then [Control(after, reason)] else [])
  {
  }
}
