/**
 Approval and question requests routed to frontends
 (packages/remote-backend/src/approval.ts and question.ts). The two bridges
 share one protocol: ask the write holder, or everyone attached, or everyone
 connected; the first answer wins; a request nobody is left to answer fails
 closed. Only questions are aborted or withdrawn on disposal, and only
 approvals may be delegated.
 */
module Interaction {
  import opened Wrappers
  import B = Broker

  type RequestId = string
  type ClientId = B.ClientId
  /** A decision or a set of answers, passed through as it is. */
  type Text = string

  /** How a request ended. An approval reads every ending but an answer as a denial, a question as a rejection. */
  datatype Verdict = Answered(winner: ClientId, answer: Text) | Unavailable | Delegated | Deserted | Aborted | Disposed

  /** An open request: whom it was sent to, and who of them may still answer it. */
  datatype Pending = Pending(id: RequestId, session: Option<B.SessionId>, routed: set<ClientId>, targets: set<ClientId>)

  /** Who was connected, and who had gone away, when a request was settled. */
  datatype Presence = Presence(connected: set<ClientId>, departed: set<ClientId>)

  /** A settled request: whom it was sent to, who was eligible at that moment, and who was sent the closed notice. */
  datatype Closure = Closure(id: RequestId, verdict: Verdict, routed: set<ClientId>, targets: set<ClientId>, at: Presence, told: set<ClientId>)

  /** The broker's view, every client that ever went away, and the requests. */
  datatype State = State(view: B.View, departed: set<ClientId>, pending: seq<Pending>, closed: seq<Closure>)

  function Now(b: State): Presence {
    Presence(b.view.connected, b.departed)
  }

  datatype Step =
    | Serve(step: B.Step)
    | Leave(c: ClientId)
    | Ask(id: RequestId, session: Option<B.SessionId>, aborted: bool, failClosed: bool)
    | Answer(c: ClientId, id: RequestId, answer: Text)
    | Abort(id: RequestId)
    | Dispose

  function Start(): State {
    State(B.EMPTY, {}, [], [])
  }

  // ---------------------------------------------------------------- routing

  /** The write holder's client, if it is connected. */
  function Writer(v: B.View, s: B.SessionId): Option<ClientId> {
    var holder := B.Holder(v, s);
    if holder.Some? && holder.value in v.connected then holder else None
  }

  function AttachedTo(v: B.View, s: B.SessionId): set<ClientId> {
    set k <- v.attached | k.session == s && k.client in v.connected :: k.client
  }

  function Targets(v: B.View, session: Option<B.SessionId>): set<ClientId> {
    if session.None? then v.connected
    else if Writer(v, session.value).Some? then {Writer(v, session.value).value}
    else AttachedTo(v, session.value)
  }

  /** Only the holder is asked when there is one, and only clients that can see the session otherwise. */
  lemma RoutedToHolderOrAttached(v: B.View, s: B.SessionId, c: ClientId)
    requires B.Sound(v)
    ensures c in Targets(v, Some(s)) <==>
              c in v.connected && B.Key(c, s) in v.attached && (B.Holder(v, s).Some? ==> B.Holder(v, s).value == c)
    ensures c in Targets(v, None) <==> c in v.connected
  {
    if c in v.connected && B.Key(c, s) in v.attached { assert B.Key(c, s).client == c; }
  }

  // ---------------------------------------------------------------- operations

  predicate IsPending(pending: seq<Pending>, id: RequestId) {
    exists p | p in pending :: p.id == id
  }

  /** The open request of that id, if any. */
  function Find(pending: seq<Pending>, id: RequestId): (r: Option<Pending>)
    ensures r.Some? <==> IsPending(pending, id)
    ensures r.Some? ==> r.value in pending && r.value.id == id
  {
    if pending == [] then None
    else if pending[0].id == id then Some(pending[0])
    else assert forall p | p in pending :: p == pending[0] || p in pending[1..]; Find(pending[1..], id)
  }

  function Remove(pending: seq<Pending>, id: RequestId): seq<Pending> {
    if pending == [] then [] else (if pending[0].id == id then [] else [pending[0]]) + Remove(pending[1..], id)
  }

  predicate WasClosed(closed: seq<Closure>, id: RequestId) {
    exists k | 0 <= k < |closed| :: closed[k].id == id
  }

  /** Close one request: every remaining target but the winner is told. */
  function Close(b: State, p: Pending, verdict: Verdict): State {
    var told := if verdict.Answered? then p.targets - {verdict.winner} else p.targets;
    b.(pending := Remove(b.pending, p.id), closed := b.closed + [Closure(p.id, verdict, p.routed, p.targets, Now(b), told)])
  }

  predicate Last(p: Pending, c: ClientId) {
    c in p.targets && p.targets - {c} == {}
  }

  /** Open requests after client `c` left: without it, and without those it was the last target of. */
  function Survivors(pending: seq<Pending>, c: ClientId): seq<Pending> {
    if pending == [] then []
    else (if Last(pending[0], c) then [] else [pending[0].(targets := pending[0].targets - {c})]) + Survivors(pending[1..], c)
  }

  /** The closure of a request its last target left. */
  function DesertedBy(p: Pending, at: Presence): Closure {
    Closure(p.id, Deserted, p.routed, {}, at, {})
  }

  function Deserts(pending: seq<Pending>, c: ClientId, at: Presence): seq<Closure> {
    if pending == [] then []
    else (if Last(pending[0], c) then [DesertedBy(pending[0], at)] else []) + Deserts(pending[1..], c, at)
  }

  function WithdrawnAt(p: Pending, at: Presence): Closure {
    Closure(p.id, Disposed, p.routed, p.targets, at, p.targets)
  }

  function Withdrawn(pending: seq<Pending>, at: Presence): seq<Closure> {
    seq(|pending|, i requires 0 <= i < |pending| => WithdrawnAt(pending[i], at))
  }

  /**
   Request ids are random and client ids are minted per connection: neither
   comes up twice. A client that goes away goes from broker and bridge at once.
   */
  predicate Enabled(b: State, step: Step) {
    match step
    case Serve(s) => !s.Disconnect? && (s.Connect? ==> s.c !in b.departed)
    case Leave(c) => c in b.view.connected
    case Ask(id, _, _, _) => !IsPending(b.pending, id) && !WasClosed(b.closed, id)
    case _ => true
  }

  function AnswerFrom(b: State, c: ClientId, id: RequestId, answer: Text): State {
    var p := Find(b.pending, id);
    if p.None? || c !in p.value.targets then b else Close(b, p.value, Answered(c, answer))
  }

  function AskFor(b: State, id: RequestId, session: Option<B.SessionId>, aborted: bool, failClosed: bool): State {
    var targets := Targets(b.view, session);
    if aborted || targets == {} then b.(closed := b.closed + [AtOnce(b, id, aborted, failClosed)])
    else b.(pending := b.pending + [Pending(id, session, targets, targets)])
  }

  /** A request that is sent to nobody. */
  function AtOnce(b: State, id: RequestId, aborted: bool, failClosed: bool): Closure {
    Closure(id, if aborted then Aborted else if failClosed then Unavailable else Delegated, {}, {}, Now(b), {})
  }

  function Next(b: State, step: Step): State
    requires Enabled(b, step)
  {
    match step
    case Serve(s) => b.(view := B.Apply(b.view, s))
    case Leave(c) =>
      var v := B.Apply(b.view, B.Disconnect(c));
      var at := Presence(v.connected, b.departed + {c});
      State(v, at.departed, Survivors(b.pending, c), b.closed + Deserts(b.pending, c, at))
    case Ask(id, session, aborted, failClosed) => AskFor(b, id, session, aborted, failClosed)
    case Answer(c, id, answer) => AnswerFrom(b, c, id, answer)
    case Abort(id) => var p := Find(b.pending, id); if p.None? then b else Close(b, p.value, Aborted)
    case Dispose => b.(pending := [], closed := b.closed + Withdrawn(b.pending, Now(b)))
  }

  // ---------------------------------------------------------------- the invariant

  ghost predicate DistinctIds(pending: seq<Pending>) {
    forall i, j | 0 <= i < j < |pending| :: pending[i].id != pending[j].id
  }

  /** An open request can still be answered: its targets are those it was sent to who have not gone, and there are some. */
  ghost predicate Answerable(pending: seq<Pending>, now: Presence) {
    forall p | p in pending :: p.targets != {} && p.targets == p.routed - now.departed && p.targets <= now.connected
  }

  /**
   How a request may end. An answer came from a client eligible and connected
   at that moment; every other eligible client was told. It fails closed only
   when it could be sent to nobody, or when everyone it was sent to has gone.
   */
  ghost predicate Fair(c: Closure) {
    && c.targets == c.routed - c.at.departed && c.targets <= c.at.connected
    && (c.verdict.Answered? ==> c.verdict.winner in c.targets && c.told == c.targets - {c.verdict.winner})
    && (!c.verdict.Answered? ==> c.told == c.targets)
    && (c.verdict.Deserted? ==> c.routed != {} && c.targets == {})
    && (c.verdict.Unavailable? || c.verdict.Delegated? ==> c.routed == {})
  }

  ghost predicate ClosedOnce(pending: seq<Pending>, closed: seq<Closure>) {
    && (forall i, j | 0 <= i < j < |closed| :: closed[i].id != closed[j].id)
    && (forall i | 0 <= i < |closed| :: !IsPending(pending, closed[i].id) && Fair(closed[i]))
  }

  ghost predicate Inv(b: State) {
    && B.Sound(b.view)
    && b.view.connected !! b.departed
    && DistinctIds(b.pending) && Answerable(b.pending, Now(b))
    && ClosedOnce(b.pending, b.closed)
  }

  lemma FirstIsAlone(pending: seq<Pending>)
    requires DistinctIds(pending) && pending != []
    ensures !IsPending(pending[1..], pending[0].id) && DistinctIds(pending[1..])
  {
  }

  lemma FirstAdded(first: Pending, rest: seq<Pending>)
    requires DistinctIds(rest) && !IsPending(rest, first.id)
    ensures DistinctIds([first] + rest)
  {
    forall j | 0 <= j < |rest| ensures rest[j].id != first.id {
      assert rest[j] in rest;
    }
  }

  lemma {:induction false} RemovedMembers(pending: seq<Pending>, id: RequestId)
    ensures forall p :: p in Remove(pending, id) <==> p in pending && p.id != id
    decreases |pending|
  {
    if pending != [] {
      RemovedMembers(pending[1..], id);
      assert forall p :: p in pending <==> p == pending[0] || p in pending[1..];
    }
  }

  lemma {:induction false} RemoveIs(pending: seq<Pending>, id: RequestId)
    requires DistinctIds(pending)
    ensures DistinctIds(Remove(pending, id)) && !IsPending(Remove(pending, id), id)
    ensures forall p :: p in Remove(pending, id) <==> p in pending && p.id != id
    decreases |pending|
  {
    RemovedMembers(pending, id);
    if pending != [] && pending[0].id != id {
      FirstIsAlone(pending);
      hide DistinctIds;
      RemoveIs(pending[1..], id);
      RemovedMembers(pending[1..], id);
      FirstAdded(pending[0], Remove(pending[1..], id));
    } else if pending != [] {
      FirstIsAlone(pending);
      hide DistinctIds;
      RemoveIs(pending[1..], id);
    }
  }

  /** A surviving request is an old one without the client. */
  lemma {:induction false} SurvivorsOrigin(pending: seq<Pending>, c: ClientId, p: Pending) returns (o: Pending)
    requires p in Survivors(pending, c)
    ensures o in pending && p == o.(targets := o.targets - {c}) && !Last(o, c)
    decreases |pending|
  {
    if p in Survivors(pending[1..], c) {
      o := SurvivorsOrigin(pending[1..], c, p);
    } else {
      o := pending[0];
    }
  }

  lemma {:induction false} SurvivorsAre(pending: seq<Pending>, c: ClientId)
    requires DistinctIds(pending)
    ensures DistinctIds(Survivors(pending, c))
    ensures forall p | p in Survivors(pending, c) :: IsPending(pending, p.id)
    decreases |pending|
  {
    forall p | p in Survivors(pending, c) ensures IsPending(pending, p.id) {
      var o := SurvivorsOrigin(pending, c, p);
      assert o.id == p.id;
    }
    if pending != [] {
      var first, rest := pending[0], Survivors(pending[1..], c);
      FirstIsAlone(pending);
      SurvivorsAre(pending[1..], c);
      NotPending(rest, pending[1..], first.id);
      FirstAdded(first.(targets := first.targets - {c}), rest);
    }
  }

  lemma NotPending(open: seq<Pending>, pending: seq<Pending>, id: RequestId)
    requires !IsPending(pending, id) && forall p | p in open :: IsPending(pending, p.id)
    ensures !IsPending(open, id)
  {
    forall p | p in open ensures p.id != id { assert IsPending(pending, p.id); }
  }

  lemma CloseKeepsInv(b: State, p: Pending, verdict: Verdict)
    requires Inv(b) && p in b.pending
    requires verdict.Answered? ==> verdict.winner in p.targets
    requires verdict.Answered? || verdict.Aborted?
    ensures Inv(Close(b, p, verdict))
  {
    var z := Close(b, p, verdict);
    RemoveIs(b.pending, p.id);
    assert IsPending(b.pending, p.id);
    forall q | q in z.pending ensures IsPending(b.pending, q.id) {
      assert q in b.pending;
    }
    forall i | 0 <= i < |b.closed| ensures b.closed[i].id != p.id && !IsPending(z.pending, b.closed[i].id) {
      NotPending(z.pending, b.pending, b.closed[i].id);
    }
    hide Remove;
    assert Answerable(z.pending, Now(z));
    assert Fair(z.closed[|b.closed|]);
    hide Fair;
    hide IsPending;
    assert ClosedOnce(z.pending, z.closed);
  }

  /** Newly settled requests: open before, not open any more, each settled once and fairly. */
  ghost predicate Newly(more: seq<Closure>, pending: seq<Pending>, open: seq<Pending>) {
    && (forall i | 0 <= i < |more| :: Fair(more[i]) && IsPending(pending, more[i].id) && !IsPending(open, more[i].id))
    && (forall i, j | 0 <= i < j < |more| :: more[i].id != more[j].id)
  }

  /** Client `c` is one of those who have gone, and the only one not yet taken off the targets. */
  ghost predicate Leaving(pending: seq<Pending>, c: ClientId, at: Presence) {
    forall p | p in pending :: p.targets - {c} == p.routed - at.departed && p.targets <= p.routed
  }

  lemma LeaveStep(pending: seq<Pending>, c: ClientId, at: Presence)
    requires pending != []
    ensures Survivors(pending, c) ==
              (if Last(pending[0], c) then Survivors(pending[1..], c) else [pending[0].(targets := pending[0].targets - {c})] + Survivors(pending[1..], c))
    ensures Deserts(pending, c, at) ==
              (if Last(pending[0], c) then [DesertedBy(pending[0], at)] + Deserts(pending[1..], c, at) else Deserts(pending[1..], c, at))
  {
  }

  lemma LeavingRest(pending: seq<Pending>, c: ClientId, at: Presence)
    requires Leaving(pending, c, at) && pending != []
    ensures Leaving(pending[1..], c, at)
    ensures pending[0].targets - {c} == pending[0].routed - at.departed && pending[0].targets <= pending[0].routed
  {
    assert pending[0] in pending;
  }

  lemma NoneDeserted(c: ClientId, at: Presence)
    ensures Newly(Deserts([], c, at), [], Survivors([], c))
  {
  }

  lemma {:induction false} DesertsAre(pending: seq<Pending>, c: ClientId, at: Presence)
    requires DistinctIds(pending) && Leaving(pending, c, at)
    ensures Newly(Deserts(pending, c, at), pending, Survivors(pending, c))
    decreases |pending|
  {
    hide *;
    if pending == [] {
      NoneDeserted(c, at);
    } else {
      var first, rest := pending[0], pending[1..];
      LeavingRest(pending, c, at);
      LeaveStep(pending, c, at);
      FirstIsAlone(pending);
      DesertsAre(rest, c, at);
      SurvivorsAre(rest, c);
      NewlyMore(Deserts(rest, c, at), first, rest, Survivors(rest, c), c, at);
      assert pending == [first] + rest;
    }
  }

  lemma NewlyMore(d: seq<Closure>, first: Pending, rest: seq<Pending>, open: seq<Pending>, c: ClientId, at: Presence)
    requires Newly(d, rest, open) && !IsPending(rest, first.id) && first.targets - {c} == first.routed - at.departed
    requires first.targets <= first.routed
    requires forall p | p in open :: IsPending(rest, p.id)
    ensures Last(first, c) ==> Newly([DesertedBy(first, at)] + d, [first] + rest, open)
    ensures !Last(first, c) ==> Newly(d, [first] + rest, [first.(targets := first.targets - {c})] + open)
  {
    var pending, kept := [first] + rest, first.(targets := first.targets - {c});
    if Last(first, c) { DesertedIsFair(first, c, at); }
    hide Last;
    hide Fair;
    NotPending(open, rest, first.id);
    forall id ensures IsPending(pending, id) <==> id == first.id || IsPending(rest, id) { PendingMore(first, rest, id); }
    forall id ensures IsPending([kept] + open, id) <==> id == first.id || IsPending(open, id) { PendingMore(kept, open, id); }
    hide IsPending;
    var e := [DesertedBy(first, at)] + d;
    assert e[0].id == first.id;
    assert forall i | 1 <= i < |e| :: e[i] == d[i - 1];
  }

  lemma PendingMore(first: Pending, rest: seq<Pending>, id: RequestId)
    ensures IsPending([first] + rest, id) <==> id == first.id || IsPending(rest, id)
  {
    var all := [first] + rest;
    if id == first.id { assert first in all; }
    if IsPending(rest, id) {
      var p :| p in rest && p.id == id;
      assert p in all;
    }
  }

  lemma DesertedIsFair(p: Pending, c: ClientId, at: Presence)
    requires Last(p, c) && p.targets <= p.routed && p.targets - {c} == p.routed - at.departed
    ensures Fair(DesertedBy(p, at))
  {
  }

  /** Settled requests followed by newly settled ones. */
  lemma ClosedMore(pending: seq<Pending>, closed: seq<Closure>, open: seq<Pending>, more: seq<Closure>)
    requires ClosedOnce(pending, closed)
    requires forall p | p in open :: IsPending(pending, p.id)
    requires Newly(more, pending, open)
    ensures ClosedOnce(open, closed + more)
  {
    hide Fair;
    var all := closed + more;
    forall i | 0 <= i < |all| ensures !IsPending(open, all[i].id) && Fair(all[i]) {
      if i < |closed| { NotPending(open, pending, closed[i].id); }
    }
    hide IsPending;
    forall i, j | 0 <= i < j < |all| ensures all[i].id != all[j].id {
      if i < |closed| <= j { assert IsPending(pending, more[j - |closed|].id); }
    }
  }

  lemma LeaveKeepsInv(b: State, c: ClientId)
    requires Inv(b) && c in b.view.connected
    ensures Inv(Next(b, Leave(c)))
  {
    var v := B.Apply(b.view, B.Disconnect(c));
    var at := Presence(v.connected, b.departed + {c});
    B.ApplyKeepsSound(b.view, B.Disconnect(c));
    SurvivorsAre(b.pending, c);
    assert Leaving(b.pending, c, at);
    DesertsAre(b.pending, c, at);
    ClosedMore(b.pending, b.closed, Survivors(b.pending, c), Deserts(b.pending, c, at));
    hide B.Sound;
    hide ClosedOnce;
    hide DistinctIds;
    forall p | p in Survivors(b.pending, c) ensures p.targets != {} && p.targets == p.routed - at.departed && p.targets <= v.connected {
      var o := SurvivorsOrigin(b.pending, c, p);
    }
  }

  /** The closures of a departure, one for each request its last target left, and the requests that stay. */
  lemma {:induction false} LeaveSplits(pending: seq<Pending>, c: ClientId, at: Presence)
    ensures forall p | p in pending ::
              if Last(p, c) then DesertedBy(p, at) in Deserts(pending, c, at)
              else p.(targets := p.targets - {c}) in Survivors(pending, c)
    ensures |pending| == |Survivors(pending, c)| + |Deserts(pending, c, at)|
    decreases |pending|
  {
    if pending != [] {
      LeaveSplits(pending[1..], c, at);
      var first, gone, stay := pending[0], Deserts(pending[1..], c, at), Survivors(pending[1..], c);
      assert Last(first, c) ==> Deserts(pending, c, at)[0] == DesertedBy(first, at);
      assert !Last(first, c) ==> Survivors(pending, c)[0] == first.(targets := first.targets - {c});
      assert forall d | d in gone :: d in Deserts(pending, c, at);
      assert forall q | q in stay :: q in Survivors(pending, c);
      assert forall p | p in pending :: p == first || p in pending[1..];
    }
  }

  /**
   A departure settles exactly the requests nobody is left to answer: a request
   with other targets stays open with those, one with none is closed as
   deserted, and nothing else is closed.
   */
  lemma LeaveSettlesExactly(b: State, c: ClientId)
    requires Inv(b) && c in b.view.connected
    ensures var z := Next(b, Leave(c));
            var now := Now(z);
            && b.closed <= z.closed
            && (forall p | p in b.pending && p.targets - {c} != {} :: p.(targets := p.targets - {c}) in z.pending)
            && (forall p | p in b.pending && p.targets - {c} == {} ::
                  !IsPending(z.pending, p.id) && Closure(p.id, Deserted, p.routed, {}, now, {}) in z.closed[|b.closed|..])
            && |z.pending| + |z.closed| == |b.pending| + |b.closed|
  {
    var z := Next(b, Leave(c));
    var at := Now(z);
    LeaveKeepsInv(b, c);
    LeaveSplits(b.pending, c, at);
    assert z.pending == Survivors(b.pending, c) && z.closed == b.closed + Deserts(b.pending, c, at);
    assert z.closed[|b.closed|..] == Deserts(b.pending, c, at);
    forall p | p in b.pending ensures Last(p, c) <==> p.targets - {c} == {} {
      assert p.targets != {};
    }
    assert ClosedOnce(z.pending, z.closed);
    hide *;
    forall p | p in b.pending && p.targets - {c} == {} ensures !IsPending(z.pending, p.id) {
      assert DesertedBy(p, at) in z.closed;
      ClosedIsNotPending(z.pending, z.closed, DesertedBy(p, at));
      assert DesertedBy(p, at).id == p.id by { DesertedId(p, at); }
    }
  }

  lemma DesertedId(p: Pending, at: Presence)
    ensures DesertedBy(p, at).id == p.id
  {
  }

  lemma ClosedIsNotPending(pending: seq<Pending>, closed: seq<Closure>, c: Closure)
    requires ClosedOnce(pending, closed) && c in closed
    ensures !IsPending(pending, c.id)
  {
    hide IsPending;
    hide Fair;
  }

  // ---- what each of the other steps settles

  lemma {:induction false} RemoveAt(pending: seq<Pending>, k: nat)
    requires DistinctIds(pending) && k < |pending|
    ensures Remove(pending, pending[k].id) == pending[..k] + pending[k + 1..]
    decreases |pending|
  {
    var rest, id := pending[1..], pending[k].id;
    FirstIsAlone(pending);
    if k == 0 {
      hide Remove;
      RemoveNone(rest, id);
      RemoveHere(pending);
    } else {
      assert pending[0].id != id;
      hide DistinctIds;
      RemoveAt(rest, k - 1);
      RemoveLater(pending, id);
      hide Remove;
      assert pending[..k] == [pending[0]] + rest[..k - 1] && pending[k + 1..] == rest[k..];
    }
  }

  lemma RemoveHere(pending: seq<Pending>)
    requires pending != []
    ensures Remove(pending, pending[0].id) == Remove(pending[1..], pending[0].id)
  {
  }

  lemma RemoveLater(pending: seq<Pending>, id: RequestId)
    requires pending != [] && pending[0].id != id
    ensures Remove(pending, id) == [pending[0]] + Remove(pending[1..], id)
  {
  }

  lemma {:induction false} RemoveNone(pending: seq<Pending>, id: RequestId)
    requires forall i | 0 <= i < |pending| :: pending[i].id != id
    ensures Remove(pending, id) == pending
    decreases |pending|
  {
    if pending != [] { RemoveNone(pending[1..], id); }
  }

  /** From `b` to `z` the request at place `k` was settled, and nothing else happened. */
  ghost predicate SettlesAlone(b: State, z: State, k: nat, verdict: Verdict, told: set<ClientId>)
    requires k < |b.pending|
  {
    var p := b.pending[k];
    && z.view == b.view && z.departed == b.departed
    && z.pending == b.pending[..k] + b.pending[k + 1..]
    && z.closed == b.closed + [Closure(p.id, verdict, p.routed, p.targets, Now(b), told)]
  }

  /** An answer settles the open request it names, with that answer, exactly when it comes from one of its targets; any other is without effect. */
  lemma AnswerSettles(b: State, c: ClientId, id: RequestId, answer: Text)
    requires Inv(b)
    ensures var z := Next(b, Answer(c, id, answer));
            && (forall k | 0 <= k < |b.pending| && b.pending[k].id == id && c in b.pending[k].targets ::
                  SettlesAlone(b, z, k, Answered(c, answer), b.pending[k].targets - {c}))
            && ((forall k | 0 <= k < |b.pending| :: b.pending[k].id != id || c !in b.pending[k].targets) ==> z == b)
  {
    OpenIsFound(b.pending, id);
    forall k | 0 <= k < |b.pending| && b.pending[k].id == id { RemoveAt(b.pending, k); }
  }

  lemma OpenIsFound(pending: seq<Pending>, id: RequestId)
    requires DistinctIds(pending)
    ensures forall k | 0 <= k < |pending| && pending[k].id == id :: Find(pending, id) == Some(pending[k])
    ensures Find(pending, id).Some? ==> exists k :: 0 <= k < |pending| && pending[k] == Find(pending, id).value
  {
    forall k | 0 <= k < |pending| && pending[k].id == id ensures Find(pending, id) == Some(pending[k]) {
      assert pending[k] in pending;
    }
  }

  /** An abort settles the open request it names; without one it has no effect. */
  lemma AbortSettles(b: State, id: RequestId)
    requires Inv(b)
    ensures var z := Next(b, Abort(id));
            && (forall k | 0 <= k < |b.pending| && b.pending[k].id == id :: SettlesAlone(b, z, k, Aborted, b.pending[k].targets))
            && ((forall k | 0 <= k < |b.pending| :: b.pending[k].id != id) ==> z == b)
  {
    OpenIsFound(b.pending, id);
    forall k | 0 <= k < |b.pending| && b.pending[k].id == id { RemoveAt(b.pending, k); }
  }

  /** Disposal withdraws every open request, oldest first, and tells all its targets. */
  lemma DisposeSettles(b: State)
    ensures var z := Next(b, Dispose);
            && z.pending == [] && b.closed <= z.closed && |z.closed| == |b.closed| + |b.pending|
            && forall k | 0 <= k < |b.pending| ::
                 var p := b.pending[k];
                 z.closed[|b.closed| + k] == Closure(p.id, Disposed, p.routed, p.targets, Now(b), p.targets)
  {
  }

  /** How a new request is decided: open for its targets, or settled at once because it was aborted or there is nobody to ask. */
  lemma AskDecides(b: State, id: RequestId, session: Option<B.SessionId>, aborted: bool, failClosed: bool)
    requires Enabled(b, Ask(id, session, aborted, failClosed))
    ensures var z := Next(b, Ask(id, session, aborted, failClosed));
            var somebody := Targets(b.view, session) != {};
            && z.view == b.view && z.departed == b.departed
            && (!aborted && somebody ==>
                  z.closed == b.closed && z.pending == b.pending + [Pending(id, session, Targets(b.view, session), Targets(b.view, session))])
            && (aborted || !somebody ==>
                  && z.pending == b.pending && |z.closed| == |b.closed| + 1 && b.closed <= z.closed
                  && var c := z.closed[|b.closed|];
                     && c.id == id && c.routed == c.targets == c.told == {}
                     && (c.verdict == Aborted <==> aborted)
                     && (c.verdict == Unavailable <==> !aborted && failClosed)
                     && (c.verdict == Delegated <==> !aborted && !failClosed))
  {
  }

  lemma DisposeKeepsInv(b: State)
    requires Inv(b)
    ensures Inv(Next(b, Dispose))
  {
    var more := Withdrawn(b.pending, Now(b));
    forall i | 0 <= i < |more| ensures Fair(more[i]) && IsPending(b.pending, more[i].id) && !IsPending([], more[i].id) {
      assert b.pending[i] in b.pending;
    }
    ClosedMore(b.pending, b.closed, [], more);
  }

  lemma AskKeepsInv(b: State, id: RequestId, session: Option<B.SessionId>, aborted: bool, failClosed: bool)
    requires Inv(b) && Enabled(b, Ask(id, session, aborted, failClosed))
    ensures Inv(AskFor(b, id, session, aborted, failClosed))
  {
    var z := AskFor(b, id, session, aborted, failClosed);
    assert forall p | p in b.pending :: p.id != id;
    TargetsConnected(b.view, session);
    hide Targets;
    if z.pending == b.pending {
      AtOnceIsFair(b, id, aborted, failClosed);
      hide Fair;
      hide IsPending;
      assert forall i | 0 <= i < |b.closed| :: z.closed[i] == b.closed[i];
      assert forall i | 0 <= i < |b.closed| :: b.closed[i].id != id;
    } else {
      hide Fair;
      forall i | 0 <= i < |b.closed| ensures !IsPending(z.pending, b.closed[i].id) {
        assert b.closed[i].id != id;
      }
    }
  }

  lemma AtOnceIsFair(b: State, id: RequestId, aborted: bool, failClosed: bool)
    ensures Fair(AtOnce(b, id, aborted, failClosed))
  {
  }

  lemma TargetsConnected(v: B.View, session: Option<B.SessionId>)
    ensures Targets(v, session) <= v.connected
  {
  }

  lemma ServeKeepsInv(b: State, step: B.Step)
    requires Inv(b) && Enabled(b, Serve(step))
    ensures Inv(Next(b, Serve(step)))
  {
    B.ApplyKeepsSound(b.view, step);
    assert b.view.connected <= B.Apply(b.view, step).connected;
    hide B.Sound;
    hide ClosedOnce;
  }

  lemma NextKeepsInv(b: State, step: Step)
    requires Inv(b) && Enabled(b, step)
    ensures Inv(Next(b, step))
  {
    match step
    case Serve(s) => ServeKeepsInv(b, s);
    case Leave(c) => LeaveKeepsInv(b, c);
    case Ask(id, session, aborted, failClosed) => AskKeepsInv(b, id, session, aborted, failClosed);
    case Answer(c, id, answer) =>
      var p := Find(b.pending, id);
      if p.Some? && c in p.value.targets { CloseKeepsInv(b, p.value, Answered(c, answer)); }
    case Abort(id) =>
      var p := Find(b.pending, id);
      if p.Some? { CloseKeepsInv(b, p.value, Aborted); }
    case Dispose => DisposeKeepsInv(b);
  }

  // ---------------------------------------------------------------- whole runs

  ghost predicate Runs(b: State, steps: seq<Step>, z: State)
    decreases |steps|
  {
    if steps == [] then z == b else Enabled(b, steps[0]) && Runs(Next(b, steps[0]), steps[1..], z)
  }

  ghost predicate Known(b: State, id: RequestId) {
    IsPending(b.pending, id) || WasClosed(b.closed, id)
  }

  lemma {:induction false} LeaveKeepsKnown(pending: seq<Pending>, c: ClientId, at: Presence, id: RequestId)
    requires IsPending(pending, id)
    ensures IsPending(Survivors(pending, c), id) || WasClosed(Deserts(pending, c, at), id)
    decreases |pending|
  {
    var d, e := Deserts(pending[1..], c, at), Deserts(pending, c, at);
    if pending[0].id == id {
      if Last(pending[0], c) { assert e[0].id == id; }
      else { assert Survivors(pending, c)[0].id == id; assert Survivors(pending, c)[0] in Survivors(pending, c); }
    } else {
      var p :| p in pending && p.id == id;
      assert p in pending[1..];
      LeaveKeepsKnown(pending[1..], c, at, id);
      if WasClosed(d, id) {
        var k :| 0 <= k < |d| && d[k].id == id;
        assert e[k + |e| - |d|] == d[k];
      } else {
        var q :| q in Survivors(pending[1..], c) && q.id == id;
        assert q in Survivors(pending, c);
      }
    }
  }

  lemma ClosedStays(closed: seq<Closure>, more: seq<Closure>, id: RequestId)
    ensures WasClosed(closed + more, id) <==> WasClosed(closed, id) || WasClosed(more, id)
  {
    var all := closed + more;
    if WasClosed(closed, id) {
      var k :| 0 <= k < |closed| && closed[k].id == id;
      assert all[k].id == id;
    }
    if WasClosed(more, id) {
      var k :| 0 <= k < |more| && more[k].id == id;
      assert all[|closed| + k].id == id;
    }
    if WasClosed(all, id) {
      var k :| 0 <= k < |all| && all[k].id == id;
      if k >= |closed| { assert more[k - |closed|].id == id; }
    }
  }

  lemma CloseKeepsKnown(b: State, p: Pending, verdict: Verdict, id: RequestId)
    requires Inv(b) && p in b.pending && Known(b, id)
    ensures Known(Close(b, p, verdict), id)
  {
    var z := Close(b, p, verdict);
    ClosedStays(b.closed, z.closed[|b.closed|..], id);
    assert z.closed == b.closed + z.closed[|b.closed|..];
    RemoveIs(b.pending, p.id);
    if p.id == id {
      assert z.closed[|b.closed|].id == id;
    } else if IsPending(b.pending, id) {
      var q :| q in b.pending && q.id == id;
      assert q in z.pending;
    }
  }

  /** A request that was made stays open or settled: none is lost. */
  lemma NextKeepsKnown(b: State, step: Step, id: RequestId)
    requires Inv(b) && Enabled(b, step) && (Known(b, id) || (step.Ask? && step.id == id))
    ensures Known(Next(b, step), id)
  {
    hide Inv;
    hide IsPending;
    hide WasClosed;
    match step
    case Serve(_) =>
    case Leave(c) =>
      var at := Presence(B.Apply(b.view, B.Disconnect(c)).connected, b.departed + {c});
      ClosedStays(b.closed, Deserts(b.pending, c, at), id);
      if IsPending(b.pending, id) { LeaveKeepsKnown(b.pending, c, at, id); }
    case Ask(i, session, aborted, failClosed) => AskMakesKnown(b, i, session, aborted, failClosed, id);
    case Answer(c, i, answer) =>
      var p := Find(b.pending, i);
      if p.Some? && c in p.value.targets { CloseKeepsKnown(b, p.value, Answered(c, answer), id); }
    case Abort(i) =>
      var p := Find(b.pending, i);
      if p.Some? { CloseKeepsKnown(b, p.value, Aborted, id); }
    case Dispose => DisposeKeepsKnown(b, id);
  }

  lemma AskMakesKnown(b: State, i: RequestId, session: Option<B.SessionId>, aborted: bool, failClosed: bool, id: RequestId)
    requires Known(b, id) || i == id
    ensures Known(AskFor(b, i, session, aborted, failClosed), id)
  {
    hide Targets;
    var z := AskFor(b, i, session, aborted, failClosed);
    if IsPending(b.pending, id) {
      var p :| p in b.pending && p.id == id;
      assert p in z.pending;
    } else if i == id {
      if |z.pending| > |b.pending| { assert z.pending[|b.pending|] in z.pending; } else { assert z.closed[|b.closed|].id == id; }
    } else {
      ClosedStays(b.closed, z.closed[|b.closed|..], id);
      assert z.closed == b.closed + z.closed[|b.closed|..];
    }
  }

  lemma DisposeKeepsKnown(b: State, id: RequestId)
    requires Known(b, id)
    ensures WasClosed(b.closed + Withdrawn(b.pending, Now(b)), id)
  {
    var more := Withdrawn(b.pending, Now(b));
    ClosedStays(b.closed, more, id);
    if IsPending(b.pending, id) {
      var k :| 0 <= k < |b.pending| && b.pending[k].id == id;
      assert more[k].id == id;
    }
  }

  lemma {:induction false} RunsKeepInv(b: State, steps: seq<Step>, z: State)
    requires Inv(b) && Runs(b, steps, z)
    ensures Inv(z)
    ensures forall id | Known(b, id) || (exists k :: 0 <= k < |steps| && steps[k].Ask? && steps[k].id == id) :: Known(z, id)
    decreases |steps|
  {
    hide Inv;
    hide Known;
    hide Enabled;
    if steps != [] {
      var n := Next(b, steps[0]);
      NextKeepsInv(b, steps[0]);
      RunsKeepInv(n, steps[1..], z);
      forall id | Known(b, id) || (exists k :: 0 <= k < |steps| && steps[k].Ask? && steps[k].id == id) ensures Known(z, id) {
        if Known(b, id) || (steps[0].Ask? && steps[0].id == id) {
          NextKeepsKnown(b, steps[0], id);
        } else {
          var k :| 0 <= k < |steps| && steps[k].Ask? && steps[k].id == id;
          assert steps[1..][k - 1] == steps[k];
        }
      }
    }
  }

  /**
   Over every run of requests, answers, aborts, attachments and disconnects:
   a request made is open or settled, never both, and settled at most once;
   an open one has targets, namely those it was sent to who have not gone, and
   all of them are connected; an answer came from a target connected at that
   moment, and every other remaining target was told; and it failed closed only
   if it could be sent to nobody or everyone it was sent to had gone.
   */
  lemma RequestsSettleOnce(steps: seq<Step>, z: State, id: RequestId)
    requires Runs(Start(), steps, z)
    ensures (exists k :: 0 <= k < |steps| && steps[k].Ask? && steps[k].id == id) ==> IsPending(z.pending, id) || WasClosed(z.closed, id)
    ensures !(IsPending(z.pending, id) && WasClosed(z.closed, id))
    ensures forall i, j | 0 <= i < j < |z.closed| :: z.closed[i].id != z.closed[j].id
    ensures forall p | p in z.pending :: p.targets != {} && p.targets == p.routed - z.departed && p.targets <= z.view.connected
    ensures forall i | 0 <= i < |z.closed| :: Fair(z.closed[i])
  {
    RunsKeepInv(Start(), steps, z);
    assert (exists k :: 0 <= k < |steps| && steps[k].Ask? && steps[k].id == id) ==> Known(z, id);
    hide Fair;
    hide B.Sound;
  }

  /** The step that may end a request as `c` was ended. */
  ghost predicate Causes(step: Step, c: Closure) {
    match c.verdict
    case Answered(winner, answer) => step == Answer(winner, c.id, answer)
    case Aborted => step == Abort(c.id) || (step.Ask? && step.id == c.id && step.aborted)
    case Unavailable => step.Ask? && step.id == c.id && !step.aborted && step.failClosed
    case Delegated => step.Ask? && step.id == c.id && !step.aborted && !step.failClosed
    case Deserted => step.Leave?
    case Disposed => step == Dispose
  }

  lemma StepCauses(b: State, step: Step)
    requires Enabled(b, step)
    ensures b.closed <= Next(b, step).closed
    ensures forall i | |b.closed| <= i < |Next(b, step).closed| :: Causes(step, Next(b, step).closed[i])
  {
    if step.Leave? { DesertsAreDeserted(b.pending, step.c, Presence(B.Apply(b.view, B.Disconnect(step.c)).connected, b.departed + {step.c})); }
  }

  lemma {:induction false} DesertsAreDeserted(pending: seq<Pending>, c: ClientId, at: Presence)
    ensures forall d <- Deserts(pending, c, at) :: d.verdict == Deserted
    decreases |pending|
  {
    if pending != [] { DesertsAreDeserted(pending[1..], c, at); }
  }

  /**
   Over every run: each settlement was caused by a step of that run of the
   matching kind. In particular a recorded answer is one that its winner gave in
   that run to that very request.
   */
  lemma {:induction false} SettledForCause(b: State, steps: seq<Step>, z: State)
    requires Runs(b, steps, z)
    ensures b.closed <= z.closed
    ensures forall i | |b.closed| <= i < |z.closed| :: exists k :: 0 <= k < |steps| && Causes(steps[k], z.closed[i])
    decreases |steps|
  {
    hide Enabled;
    if steps != [] {
      var n := Next(b, steps[0]);
      StepCauses(b, steps[0]);
      hide Next;
      hide Causes;
      SettledForCause(n, steps[1..], z);
      forall i | |b.closed| <= i < |z.closed| ensures exists k :: 0 <= k < |steps| && Causes(steps[k], z.closed[i]) {
        if i < |n.closed| {
          assert Causes(steps[0], z.closed[i]);
        } else {
          var k :| 0 <= k < |steps[1..]| && Causes(steps[1..][k], z.closed[i]);
          assert Causes(steps[k + 1], z.closed[i]);
        }
      }
    }
  }

  /** The broker operations within a run, a departure being the broker's disconnect. */
  function BrokerSteps(steps: seq<Step>): seq<B.Step> {
    if steps == [] then []
    else (match steps[0] case Serve(s) => [s] case Leave(c) => [B.Disconnect(c)] case _ => []) + BrokerSteps(steps[1..])
  }

  lemma OneServed(v: B.View, step: B.Step, steps: seq<B.Step>)
    ensures B.Run(v, [step] + steps) == B.Run(B.Apply(v, step), steps)
  {
    assert ([step] + steps)[1..] == steps;
  }

  lemma StepsView(b: State, step: Step)
    requires Enabled(b, step)
    ensures Next(b, step).view == (if step.Serve? then B.Apply(b.view, step.step) else if step.Leave? then B.Apply(b.view, B.Disconnect(step.c)) else b.view)
    ensures Next(b, step).departed == if step.Leave? then b.departed + {step.c} else b.departed
  {
    hide B.Apply;
  }

  /** Over every run the view is the broker's after its operations in that run, which the bridges do not influence, and those departed are those who left. */
  lemma {:induction false} ViewFollowsBroker(b: State, steps: seq<Step>, z: State)
    requires Runs(b, steps, z)
    ensures z.view == B.Run(b.view, BrokerSteps(steps))
    ensures forall c :: c in z.departed <==> c in b.departed || Leave(c) in steps
    decreases |steps|
  {
    if steps != [] {
      var n, rest := Next(b, steps[0]), BrokerSteps(steps[1..]);
      StepsView(b, steps[0]);
      hide B.Apply;
      hide Next;
      hide Enabled;
      ViewFollowsBroker(n, steps[1..], z);
      assert forall step :: step in steps <==> step == steps[0] || step in steps[1..];
      if steps[0].Serve? { OneServed(b.view, steps[0].step, rest); }
      else if steps[0].Leave? { OneServed(b.view, B.Disconnect(steps[0].c), rest); }
      else { assert [] + rest == rest; }
    }
  }
}
