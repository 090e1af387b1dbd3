/**
 The bridge object behind approvals and questions: a map of pending requests,
 kept here in its insertion order, and every notice sent to a client. It is
 proved to follow the functions of Interaction and to send each closed notice
 exactly once.
 */
module Bridges {
  import opened Wrappers
  import opened Interaction
  import B = Broker

  /** The request itself (no verdict), or the notice that it is closed. */
  datatype Notice = Notice(client: ClientId, about: RequestId, verdict: Option<Verdict>)

  predicate Tells(c: Closure, n: Notice) {
    n.about == c.id && n.verdict == Some(c.verdict) && n.client in c.told && n.client in c.at.connected
  }

  /** How many copies of a closed notice the settled requests account for. */
  function Owed(closed: seq<Closure>, n: Notice): nat {
    if closed == [] then 0 else Owed(closed[..|closed| - 1], n) + if Tells(closed[|closed| - 1], n) then 1 else 0
  }

  lemma OwedMore(closed: seq<Closure>, c: Closure, n: Notice)
    ensures Owed(closed + [c], n) == Owed(closed, n) + if Tells(c, n) then 1 else 0
  {
    assert (closed + [c])[..|closed|] == closed;
  }

  /** Requests settled once owe each eligible client one closed notice, and anyone else none. */
  lemma {:induction false} OwedOnce(closed: seq<Closure>, n: Notice)
    requires forall i, j | 0 <= i < j < |closed| :: closed[i].id != closed[j].id
    ensures Owed(closed, n) == if exists k :: 0 <= k < |closed| && Tells(closed[k], n) then 1 else 0
    decreases |closed|
  {
    if closed != [] {
      var m := |closed| - 1;
      OwedOnce(closed[..m], n);
      if Tells(closed[m], n) {
        assert forall k | 0 <= k < m :: closed[..m][k].id != n.about;
      } else if exists k :: 0 <= k < |closed| && Tells(closed[k], n) {
        var k :| 0 <= k < |closed| && Tells(closed[k], n);
        assert Tells(closed[..m][k], n);
      }
    }
  }

  /** Of a request settled once: each other eligible client got exactly one closed notice, the winner and everyone else none. */
  lemma ClosedNoticeOnce(sent: seq<Notice>, closed: seq<Closure>, k: nat, c: ClientId)
    requires SentAll(sent, closed) && k < |closed| && Fair(closed[k])
    requires forall i, j | 0 <= i < j < |closed| :: closed[i].id != closed[j].id
    ensures multiset(sent)[Notice(c, closed[k].id, Some(closed[k].verdict))]
              == if c in closed[k].targets && !(closed[k].verdict.Answered? && closed[k].verdict.winner == c) then 1 else 0
  {
    var n := Notice(c, closed[k].id, Some(closed[k].verdict));
    OwedOnce(closed, n);
    if Tells(closed[k], n) { assert exists i :: 0 <= i < |closed| && Tells(closed[i], n); }
  }

  ghost predicate SentAll(sent: seq<Notice>, closed: seq<Closure>) {
    forall n: Notice | n.verdict.Some? :: multiset(sent)[n] == Owed(closed, n)
  }

  /** Every client of `who` was sent this notice once more, and nothing else was sent. */
  ghost predicate SentTo(before: seq<Notice>, after: seq<Notice>, who: set<ClientId>, about: RequestId, verdict: Option<Verdict>) {
    forall n: Notice :: multiset(after)[n] == multiset(before)[n] + (if n.client in who && n.about == about && n.verdict == verdict then 1 else 0)
  }

  lemma SentOneMore(before: seq<Notice>, after: seq<Notice>, who: set<ClientId>, about: RequestId, verdict: Option<Verdict>, c: ClientId)
    requires SentTo(before, after, who, about, verdict) && c !in who
    ensures SentTo(before, after + [Notice(c, about, verdict)], who + {c}, about, verdict)
  {
    assert multiset(after + [Notice(c, about, verdict)]) == multiset(after) + multiset{Notice(c, about, verdict)};
  }

  lemma SettledNotices(before: seq<Notice>, after: seq<Notice>, closed: seq<Closure>, c: Closure)
    requires SentAll(before, closed) && SentTo(before, after, c.told * c.at.connected, c.id, Some(c.verdict))
    ensures SentAll(after, closed + [c])
  {
    forall n: Notice | n.verdict.Some? ensures multiset(after)[n] == Owed(closed + [c], n) {
      OwedMore(closed, c, n);
    }
  }

  lemma SilentClosure(sent: seq<Notice>, closed: seq<Closure>, c: Closure)
    requires SentAll(sent, closed) && c.told == {}
    ensures SentAll(sent, closed + [c])
  {
    forall n: Notice | n.verdict.Some? ensures multiset(sent)[n] == Owed(closed + [c], n) {
      OwedMore(closed, c, n);
    }
  }

  /** An open request with this id that client `c` may answer. */
  predicate Awaits(p: Pending, c: ClientId, id: RequestId) {
    p.id == id && c in p.targets
  }

  lemma TargetsStayConnected(b: State)
    requires Inv(b)
    ensures forall p | p in b.pending, who | who <= p.targets :: who * b.view.connected == who
    ensures DistinctIds(b.pending)
  {
  }

  class Bridge {
    /** The pending map, in insertion order. */
    var pending: seq<Pending>
    var sent: seq<Notice>
    /** Every settlement so far, and every client that went away. */
    ghost var closed: seq<Closure>
    ghost var departed: set<ClientId>

    ghost function AsState(view: B.View): State
      reads this
    {
      State(view, departed, pending, closed)
    }

    /** Under the broker's view: the invariant of all runs, and every closed notice sent exactly once. */
    ghost predicate Valid(view: B.View)
      reads this
    {
      Inv(AsState(view)) && SentAll(sent, closed)
    }

    constructor ()
      ensures Valid(B.EMPTY) && AsState(B.EMPTY) == Start() && sent == []
    {
      pending, sent, closed, departed := [], [], [], {};
    }

    /** The broker may serve anything but a disconnect in between. */
    lemma ServedStaysValid(view: B.View, step: B.Step)
      requires Valid(view) && Enabled(AsState(view), Serve(step))
      ensures Valid(B.Apply(view, step))
    {
      ServeKeepsInv(AsState(view), step);
    }

    /** Any number of broker steps between two calls of the bridge, short of a client going away, keep it valid. */
    lemma {:induction false} ServedAllStaysValid(view: B.View, steps: seq<B.Step>)
      requires Valid(view) && forall step <- steps :: !step.Disconnect? && (step.Connect? ==> step.c !in departed)
      ensures Valid(B.Run(view, steps))
      decreases |steps|
    {
      hide Inv;
      hide SentAll;
      if steps != [] {
        assert steps[0] in steps;
        ServedStaysValid(view, steps[0]);
        ServedAllStaysValid(B.Apply(view, steps[0]), steps[1..]);
      }
    }

    /** Of a settled request each other eligible client got exactly one closed notice, the winner and everyone else none. */
    lemma NoticeOnce(view: B.View, k: nat, c: ClientId)
      requires Valid(view) && k < |closed|
      ensures multiset(sent)[Notice(c, closed[k].id, Some(closed[k].verdict))]
                == if c in closed[k].targets && !(closed[k].verdict.Answered? && closed[k].verdict.winner == c) then 1 else 0
    {
      ClosedNoticeOnce(sent, closed, k, c);
    }

    /** Send one notice to each of `who`. */
    method Fanout(who: set<ClientId>, about: RequestId, verdict: Option<Verdict>)
      modifies this`sent
      ensures SentTo(old(sent), sent, who, about, verdict)
    {
      var left, done := who, {};
      while left != {}
        invariant done + left == who && done !! left && SentTo(old(sent), sent, done, about, verdict)
        decreases left
      {
        var client :| client in left;
        SentOneMore(old(sent), sent, done, about, verdict, client);
        sent := sent + [Notice(client, about, verdict)];
        left, done := left - {client}, done + {client};
      }
      assert done == who;
    }

    /** Settle a pending request and tell every remaining target but the winner, if connected, that it is closed. */
    method Settle(view: B.View, p: Pending, verdict: Verdict)
      requires SentAll(sent, closed)
      modifies this
      ensures SentAll(sent, closed) && AsState(view) == Close(old(AsState(view)), p, verdict)
      ensures SentTo(old(sent), sent, (if verdict.Answered? then p.targets - {verdict.winner} else p.targets) * view.connected, p.id, Some(verdict))
    {
      hide SentAll;
      hide SentTo;
      var told := if verdict.Answered? then p.targets - {verdict.winner} else p.targets;
      pending := Remove(pending, p.id);
      Fanout(told * view.connected, p.id, Some(verdict));
      ghost var c := Closure(p.id, verdict, p.routed, p.targets, Presence(view.connected, departed), told);
      SettledNotices(old(sent), sent, closed, c);
      closed := closed + [c];
    }

    /** The answer of a frontend; false when the request is unknown, settled, or not its to answer. */
    method TakeAnswer(view: B.View, c: ClientId, id: RequestId, answer: Text) returns (ok: bool)
      requires Valid(view)
      modifies this
      ensures Valid(view) && AsState(view) == Next(old(AsState(view)), Answer(c, id, answer))
      ensures ok <==> exists k :: 0 <= k < |old(pending)| && Awaits(old(pending)[k], c, id)
      ensures forall k | 0 <= k < |old(pending)| && Awaits(old(pending)[k], c, id) ::
                && SettlesAlone(old(AsState(view)), AsState(view), k, Answered(c, answer), old(pending)[k].targets - {c})
                && SentTo(old(sent), sent, old(pending)[k].targets - {c}, id, Some(Answered(c, answer)))
      ensures !ok ==> AsState(view) == old(AsState(view)) && sent == old(sent)
    {
      AnswerSettles(AsState(view), c, id, answer);
      OpenIsFound(pending, id);
      TargetsStayConnected(AsState(view));
      hide Inv;
      hide SentAll;
      hide SentTo;
      NextKeepsInv(AsState(view), Answer(c, id, answer));
      var p := Find(pending, id);
      if p.None? || c !in p.value.targets { return false; }
      Settle(view, p.value, Answered(c, answer));
      return true;
    }

    /** Route a request: ask its targets, or settle it at once when it is aborted or nobody can answer. */
    method Handle(view: B.View, id: RequestId, session: Option<B.SessionId>, aborted: bool, failClosed: bool) returns (now: Option<Verdict>)
      requires Valid(view) && Enabled(AsState(view), Ask(id, session, aborted, failClosed))
      modifies this
      ensures Valid(view) && AsState(view) == Next(old(AsState(view)), Ask(id, session, aborted, failClosed))
      ensures now.None? <==> !aborted && Targets(view, session) != {}
      ensures now == Some(Aborted) <==> aborted
      ensures now == Some(Unavailable) <==> !aborted && Targets(view, session) == {} && failClosed
      ensures now == Some(Delegated) <==> !aborted && Targets(view, session) == {} && !failClosed
      ensures SentTo(old(sent), sent, if now.None? then Targets(view, session) else {}, id, None)
    {
      hide Inv;
      hide SentTo;
      hide SentAll;
      NextKeepsInv(AsState(view), Ask(id, session, aborted, failClosed));
      SentNothing(sent, id, None);
      var targets := Targets(view, session);
      if aborted || targets == {} {
        var verdict := if aborted then Aborted else if failClosed then Unavailable else Delegated;
        ghost var c := AtOnce(AsState(view), id, aborted, failClosed);
        SilentClosure(sent, closed, c);
        closed := closed + [c];
        return Some(verdict);
      }
      pending := pending + [Pending(id, session, targets, targets)];
      Fanout(targets, id, None);
      AskingIsSilent(old(sent), sent, closed, targets, id);
      return None;
    }

    /** The signal of a question fired. */
    method AbortRequest(view: B.View, id: RequestId)
      requires Valid(view)
      modifies this
      ensures Valid(view) && AsState(view) == Next(old(AsState(view)), Abort(id))
      ensures forall k | 0 <= k < |old(pending)| && old(pending)[k].id == id ::
                && SettlesAlone(old(AsState(view)), AsState(view), k, Aborted, old(pending)[k].targets)
                && SentTo(old(sent), sent, old(pending)[k].targets, id, Some(Aborted))
      ensures (forall k | 0 <= k < |old(pending)| :: old(pending)[k].id != id) ==> AsState(view) == old(AsState(view)) && sent == old(sent)
    {
      AbortSettles(AsState(view), id);
      OpenIsFound(pending, id);
      TargetsStayConnected(AsState(view));
      hide SentTo;
      hide Inv;
      hide SentAll;
      NextKeepsInv(AsState(view), Abort(id));
      var p := Find(pending, id);
      if p.Some? { Settle(view, p.value, Aborted); }
    }

    /** The question provider is disposed: withdraw everything open, oldest first. */
    method DisposeAll(view: B.View)
      requires Valid(view)
      modifies this
      ensures Valid(view) && AsState(view) == Next(old(AsState(view)), Dispose)
    {
      assert DistinctIds(pending);
      hide Inv;
      hide SentAll;
      NextKeepsInv(AsState(view), Dispose);
      var open := pending;
      ghost var at := Presence(view.connected, departed);
      for i := 0 to |open|
        invariant SentAll(sent, closed) && pending == open[i..] && DistinctIds(pending) && departed == old(departed)
        invariant closed == old(closed) + Withdrawn(open[..i], at)
      {
        RemoveFirst(pending);
        WithdrawnMore(open, i, at);
        Settle(view, open[i], Disposed);
      }
      assert open[..|open|] == open;
    }

    /** Drop client `c` from the pending request between `a` and `b`, settling it when nobody is left to answer. */
    method DropTarget(view: B.View, c: ClientId, p: Pending, ghost a: seq<Pending>, ghost b: seq<Pending>)
      requires SentAll(sent, closed) && pending == a + [p] + b && OnlyOne(a, b, p.id)
      modifies this
      ensures SentAll(sent, closed) && departed == old(departed)
      ensures pending == a + Kept(p, c) + b && closed == old(closed) + LostWith(p, c, Presence(view.connected, departed))
    {
      hide SentAll;
      if c !in p.targets {
        assert p.targets - {c} == p.targets;
        return;
      }
      var q := p.(targets := p.targets - {c});
      pending := Replace(pending, q);
      ReplaceMiddle(a, p, q, b);
      if q.targets == {} {
        RemoveMiddle(a, q, b);
        Settle(view, q, Deserted);
      }
    }

    /**
     A client went away, the broker having dropped it already: it answers nothing
     any more, and what only it could answer is settled, oldest first.
     */
    method Disconnect(ghost before: B.View, view: B.View, c: ClientId)
      requires Valid(before) && c in before.connected && view == B.Apply(before, B.Disconnect(c))
      modifies this
      ensures Valid(view) && AsState(view) == Next(old(AsState(before)), Leave(c))
    {
      assert DistinctIds(pending);
      hide Inv;
      NextKeepsInv(AsState(before), Leave(c));
      departed := departed + {c};
      DropEverywhere(view, c);
    }

    method DropEverywhere(view: B.View, c: ClientId)
      requires SentAll(sent, closed) && DistinctIds(pending)
      modifies this
      ensures SentAll(sent, closed) && departed == old(departed) && pending == Survivors(old(pending), c)
      ensures closed == old(closed) + Deserts(old(pending), c, Presence(view.connected, departed))
    {
      hide SentAll;
      hide Kept;
      hide LostWith;
      hide DistinctIds;
      hide Survivors;
      hide Deserts;
      var open := pending;
      ghost var at := Presence(view.connected, departed);
      LeaveNone(c, at);
      assert open[..0] == [];
      for i := 0 to |open|
        invariant SentAll(sent, closed) && departed == old(departed) && pending == Survivors(open[..i], c) + open[i..]
        invariant closed == old(closed) + Deserts(open[..i], c, at)
      {
        SurvivorsMore(open, i, c, at);
        DropTarget(view, c, open[i], Survivors(open[..i], c), open[i + 1..]);
      }
      assert open[..|open|] == open;
    }
  }

  function Kept(p: Pending, c: ClientId): seq<Pending> {
    if Last(p, c) then [] else [p.(targets := p.targets - {c})]
  }

  function LostWith(p: Pending, c: ClientId, at: Presence): seq<Closure> {
    if Last(p, c) then [DesertedBy(p, at)] else []
  }

  ghost predicate OnlyOne(a: seq<Pending>, b: seq<Pending>, id: RequestId) {
    (forall k | 0 <= k < |a| :: a[k].id != id) && (forall k | 0 <= k < |b| :: b[k].id != id)
  }

  /** The same map with the value under the request's own id replaced. */
  function Replace(pending: seq<Pending>, q: Pending): seq<Pending> {
    seq(|pending|, i requires 0 <= i < |pending| => if pending[i].id == q.id then q else pending[i])
  }

  lemma ReplaceMiddle(a: seq<Pending>, p: Pending, q: Pending, b: seq<Pending>)
    requires OnlyOne(a, b, q.id) && p.id == q.id
    ensures Replace(a + [p] + b, q) == a + [q] + b
  {
  }

  lemma RemoveFirst(pending: seq<Pending>)
    requires pending != [] && DistinctIds(pending)
    ensures Remove(pending, pending[0].id) == pending[1..]
  {
    RemoveAbsent(pending[1..], pending[0].id);
  }

  lemma {:induction false} RemoveAbsent(pending: seq<Pending>, id: RequestId)
    requires forall i | 0 <= i < |pending| :: pending[i].id != id
    ensures Remove(pending, id) == pending
    decreases |pending|
  {
    if pending != [] { RemoveAbsent(pending[1..], id); }
  }

  lemma {:induction false} RemoveAppend(a: seq<Pending>, b: seq<Pending>, id: RequestId)
    ensures Remove(a + b, id) == Remove(a, id) + Remove(b, id)
    decreases |a|
  {
    if a == [] {
      assert a + b == b;
    } else {
      assert (a + b)[1..] == a[1..] + b;
      RemoveAppend(a[1..], b, id);
    }
  }

  lemma WithdrawnMore(open: seq<Pending>, i: nat, at: Presence)
    requires i < |open|
    ensures Withdrawn(open[..i + 1], at) == Withdrawn(open[..i], at) + [WithdrawnAt(open[i], at)]
  {
  }

  lemma LeaveFirst(p: Pending, rest: seq<Pending>, c: ClientId, at: Presence)
    ensures Survivors([p] + rest, c) == Kept(p, c) + Survivors(rest, c)
    ensures Deserts([p] + rest, c, at) == LostWith(p, c, at) + Deserts(rest, c, at)
  {
    LeaveStep([p] + rest, c, at);
    assert ([p] + rest)[1..] == rest;
    hide Survivors;
    hide Deserts;
  }

  lemma JoinAssociates<T>(a: seq<T>, b: seq<T>, c: seq<T>)
    ensures a + (b + c) == (a + b) + c && [] + a == a
  {
  }

  lemma {:induction false} LeaveAppend(a: seq<Pending>, b: seq<Pending>, c: ClientId, at: Presence)
    ensures Survivors(a + b, c) == Survivors(a, c) + Survivors(b, c)
    ensures Deserts(a + b, c, at) == Deserts(a, c, at) + Deserts(b, c, at)
    decreases |a|
  {
    if a == [] {
      LeaveNone(c, at);
    }
    hide *;
    JoinAssociates(b, [], []);
    JoinAssociates(Survivors(b, c), [], []);
    JoinAssociates(Deserts(b, c, at), [], []);
    if a != [] {
      var p, rest := a[0], a[1..];
      assert a == [p] + rest;
      JoinAssociates([p], rest, b);
      LeaveFirst(p, rest, c, at);
      LeaveFirst(p, rest + b, c, at);
      LeaveAppend(rest, b, c, at);
      JoinAssociates(Kept(p, c), Survivors(rest, c), Survivors(b, c));
      JoinAssociates(LostWith(p, c, at), Deserts(rest, c, at), Deserts(b, c, at));
    }
  }

  lemma LeaveNone(c: ClientId, at: Presence)
    ensures Survivors([], c) == [] && Deserts([], c, at) == []
  {
  }

  lemma SurvivorsMore(open: seq<Pending>, i: nat, c: ClientId, at: Presence)
    requires i < |open| && DistinctIds(open)
    ensures Survivors(open[..i + 1], c) == Survivors(open[..i], c) + Kept(open[i], c)
    ensures Deserts(open[..i + 1], c, at) == Deserts(open[..i], c, at) + LostWith(open[i], c, at)
    ensures open[i..] == [open[i]] + open[i + 1..]
    ensures OnlyOne(Survivors(open[..i], c), open[i + 1..], open[i].id)
  {
    assert open[..i + 1] == open[..i] + [open[i]];
    LeaveAppend(open[..i], [open[i]], c, at);
    LeaveOne(open[i], c, at);
    SurvivorsAre(open[..i], c);
    var a := Survivors(open[..i], c);
    forall k | 0 <= k < |a| ensures a[k].id != open[i].id {
      assert a[k] in a;
    }
  }

  lemma LeaveOne(p: Pending, c: ClientId, at: Presence)
    ensures Survivors([p], c) == Kept(p, c) && Deserts([p], c, at) == LostWith(p, c, at)
  {
    LeaveNone(c, at);
    assert Survivors([p][1..], c) == [] && Deserts([p][1..], c, at) == [];
  }

  lemma RemoveMiddle(a: seq<Pending>, q: Pending, b: seq<Pending>)
    requires OnlyOne(a, b, q.id)
    ensures Remove(a + [q] + b, q.id) == a + b
  {
    hide Remove;
    RemoveAbsent(a, q.id);
    RemoveAbsent(b, q.id);
    RemoveAppend(a + [q], b, q.id);
    RemoveAppend(a, [q], q.id);
    RemoveSelf(q);
  }

  lemma RemoveSelf(q: Pending)
    ensures Remove([q], q.id) == []
  {
    assert [q][1..] == [];
  }

  lemma SentNothing(sent: seq<Notice>, about: RequestId, verdict: Option<Verdict>)
    ensures SentTo(sent, sent, {}, about, verdict)
  {
  }

  lemma AskingIsSilent(before: seq<Notice>, after: seq<Notice>, closed: seq<Closure>, who: set<ClientId>, about: RequestId)
    requires SentAll(before, closed) && SentTo(before, after, who, about, None)
    ensures SentAll(after, closed)
  {
  }
}
