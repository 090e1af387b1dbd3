/**
 The JSON-RPC peer (packages/remote-core/src/jsonrpc.ts): calls paired with
 responses by id, settled by a response, an abort, a timeout or the end of the
 stream; and what each inbound line is answered with.
 */
module JsonRpc {
  import opened Wrappers
  import opened Framing

  datatype RpcId = NumberId(n: real) | TextId(s: string)

  const PARSE_ERROR := -32700
  const INVALID_REQUEST := -32600
  const METHOD_NOT_FOUND := -32601
  const INTERNAL_ERROR := -32603

  /** What the peer writes. */
  datatype Sent =
    | Request(id: nat, method_: string)
    | Cancel(id: nat)
    | Notification(method_: string)
    | Result(to: RpcId, value: Json)
    | ErrorReply(toWhom: Option<RpcId>, code: int)

  /** How a call ended; `response` is the message that settled it. */
  datatype Outcome = Resolved(response: Json) | Rejected(response: Json) | Aborted | TimedOut | ConnLost

  datatype Settlement = Settlement(id: nat, outcome: Outcome)

  /** A request from the other side whose handler is running, or has been answered. */
  datatype Incoming = Incoming(id: RpcId, method_: string, answered: bool)

  /**
   `pending` holds the ids of the calls not settled, oldest first; `settled`
   records every settlement in order, and `endId` the next id at stream end.
   */
  datatype Peer = Peer(
    timeoutMs: nat, methods: set<string>,
    nextId: nat, pending: seq<nat>, settled: seq<Settlement>,
    incoming: seq<Incoming>, out: seq<Sent>, ended: bool, endId: nat)

  function Start(timeoutMs: nat, methods: set<string>): Peer {
    Peer(timeoutMs, methods, 1, [], [], [], [], false, 1)
  }

  // ---------------------------------------------------------------- inbound lines

  function Get(j: Json, key: string): Option<Json>
    requires j.JObject?
  {
    if key in j.fields then Some(j.fields[key]) else None
  }

  function IdOf(j: Json): Option<RpcId> {
    match j
    case JNumber(n) => Some(NumberId(n))
    case JString(s) => Some(TextId(s))
    case _ => None
  }

  /** The id to answer with: numbers and strings as they are, anything else as 0. */
  function AsId(j: Json): RpcId {
    IdOf(j).GetOr(NumberId(0.0))
  }

  /** What an inbound message is taken for. */
  datatype Inbound =
    | Ignored
    | Invalid(reply: Option<RpcId>)
    | Call(id: RpcId, method_: string)
    | Note(method_: string)
    | Response(id: RpcId, isError: bool)

  function Classify(j: Json): Inbound {
    if IsFrameMessage(j) then Ignored
    else if !j.JObject? then Invalid(None)
    else
      var m := Get(j, "method");
      if m.Some? && m.value.JString? then
        if Get(j, "jsonrpc") != Some(JString("2.0")) then
          if Get(j, "id").Some? then Invalid(Some(AsId(Get(j, "id").value))) else Ignored
        else if Get(j, "id").Some? then Call(AsId(Get(j, "id").value), m.value.s)
        else Note(m.value.s)
      else if Get(j, "id").Some? && (Get(j, "result").Some? || Get(j, "error").Some?) then
        var id := IdOf(Get(j, "id").value);
        if id.None? then Ignored
        else Response(id.value, Get(j, "error").Some? && Get(j, "error") != Some(JNull))
      else Invalid(None)
  }

  // ---------------------------------------------------------------- steps

  datatype Step =
    | Invoke(method_: string, aborted: bool)
    | Abort(id: nat)
    | Timeout(id: nat)
    | Notify(method_: string)
    | Receive(j: Json)
    | BadLine
    | Answer(k: nat, ok: Option<Json>)
    | StreamEnd

  /** Nothing arrives once the stream has ended, and timeouts fire only when they are on. */
  predicate Enabled(p: Peer, step: Step) {
    match step
    case Receive(_) => !p.ended
    case BadLine => !p.ended
    case StreamEnd => !p.ended
    case Timeout(id) => p.timeoutMs > 0
    case Answer(k, _) => k < |p.incoming| && !p.incoming[k].answered
    case _ => true
  }

  function Without(s: seq<nat>, id: nat): seq<nat> {
    if s == [] then [] else if s[0] == id then Without(s[1..], id) else [s[0]] + Without(s[1..], id)
  }

  function Settle(p: Peer, id: nat, outcome: Outcome): Peer {
    p.(pending := Without(p.pending, id), settled := p.settled + [Settlement(id, outcome)])
  }

  function AllLost(pending: seq<nat>): seq<Settlement> {
    seq(|pending|, i requires 0 <= i < |pending| => Settlement(pending[i], ConnLost))
  }

  lemma NoneLost()
    ensures AllLost([]) == []
  {
  }

  lemma OneMoreLost(pending: seq<nat>, i: nat)
    requires i < |pending|
    ensures AllLost(pending[..i + 1]) == AllLost(pending[..i]) + [Settlement(pending[i], ConnLost)]
  {
  }

  /** Call numbers are small whole numbers; a response names one by a number equal to it. */
  predicate Names(id: RpcId, call: nat) {
    id == NumberId(call as real)
  }

  function OnResponse(p: Peer, id: RpcId, isError: bool, j: Json): Peer {
    if id.NumberId? && id.n >= 0.0 && id.n.Floor as real == id.n && id.n.Floor in p.pending
    then Settle(p, id.n.Floor, if isError then Rejected(j) else Resolved(j))
    else p
  }

  function OnMessage(p: Peer, j: Json): Peer {
    match Classify(j)
    case Ignored => p
    case Note(_) => p
    case Invalid(to) => p.(out := p.out + [ErrorReply(to, INVALID_REQUEST)])
    case Call(id, m) =>
      if m in p.methods then p.(incoming := p.incoming + [Incoming(id, m, false)])
      else p.(incoming := p.incoming + [Incoming(id, m, true)], out := p.out + [ErrorReply(Some(id), METHOD_NOT_FOUND)])
    case Response(id, isError) => OnResponse(p, id, isError, j)
  }

  function Next(p: Peer, step: Step): Peer
    requires Enabled(p, step)
  {
    match step
    case Invoke(m, aborted) =>
      var q := p.(nextId := p.nextId + 1);
      if aborted then q.(settled := q.settled + [Settlement(p.nextId, Aborted)])
      else q.(pending := q.pending + [p.nextId], out := q.out + [Request(p.nextId, m)])
    case Abort(id) => if id in p.pending then Settle(p, id, Aborted).(out := p.out + [Cancel(id)]) else p
    case Timeout(id) => if id in p.pending then Settle(p, id, TimedOut).(out := p.out + [Cancel(id)]) else p
    case Notify(m) => p.(out := p.out + [Notification(m)])
    case Receive(j) => OnMessage(p, j)
    case BadLine => p.(out := p.out + [ErrorReply(None, PARSE_ERROR)])
    case Answer(k, ok) =>
      var r := p.incoming[k];
      p.(incoming := p.incoming[k := r.(answered := true)],
         out := p.out + [if ok.Some? then Result(r.id, ok.value) else ErrorReply(Some(r.id), INTERNAL_ERROR)])
    case StreamEnd => p.(settled := p.settled + AllLost(p.pending), pending := [], ended := true, endId := p.nextId)
  }

  // ---------------------------------------------------------------- the invariant

  ghost predicate Ascending(s: seq<nat>) {
    forall i, j | 0 <= i < j < |s| :: s[i] < s[j]
  }

  predicate Done(p: Peer, id: nat) {
    exists k | 0 <= k < |p.settled| :: p.settled[k].id == id
  }

  /** A message that settles call `id`, told by its fields: no data frame, no method, the call's number, and a result or an error. */
  predicate AnswersCall(j: Json, id: nat) {
    && j.JObject? && !IsFrameMessage(j)
    && !("method" in j.fields && j.fields["method"].JString?)
    && "id" in j.fields && j.fields["id"] == JNumber(id as real)
    && ("result" in j.fields || "error" in j.fields)
  }

  predicate CarriesError(j: Json) {
    j.JObject? && "error" in j.fields && j.fields["error"] != JNull
  }

  /** The message that settled a call carried the call's own id, and an error exactly when it rejected it. */
  predicate FromOwnResponse(s: Settlement) {
    match s.outcome
    case Resolved(j) => AnswersCall(j, s.id) && !CarriesError(j)
    case Rejected(j) => AnswersCall(j, s.id) && CarriesError(j)
    case _ => true
  }

  /** Every id handed out is either pending or settled, and settled once. */
  ghost predicate Inv(p: Peer) {
    && 1 <= p.endId <= p.nextId && Ascending(p.pending)
    && (forall k | 0 <= k < |p.pending| :: 1 <= p.pending[k] < p.nextId && !Done(p, p.pending[k]))
    && (forall k | 0 <= k < |p.settled| :: 1 <= p.settled[k].id < p.nextId && FromOwnResponse(p.settled[k]))
    && (forall k, l | 0 <= k < l < |p.settled| :: p.settled[k].id != p.settled[l].id)
    && (forall id | 1 <= id < p.nextId :: id in p.pending || Done(p, id))
    && (p.ended ==> forall k | 0 <= k < |p.pending| :: p.pending[k] >= p.endId)
  }

  lemma {:induction false} WithoutIs(s: seq<nat>, id: nat)
    requires Ascending(s)
    ensures Ascending(Without(s, id)) && id !in Without(s, id)
    ensures forall x | x != id :: x in Without(s, id) <==> x in s
    decreases |s|
  {
    if s != [] {
      WithoutIs(s[1..], id);
      var t := Without(s[1..], id);
      forall j | 0 <= j < |t| ensures s[0] < t[j] {
        assert t[j] in t;
        assert t[j] in s[1..];
      }
    }
  }

  lemma SettleKeepsInv(p: Peer, id: nat, outcome: Outcome)
    requires Inv(p) && id in p.pending && FromOwnResponse(Settlement(id, outcome))
    ensures Inv(Settle(p, id, outcome))
  {
    var q := Settle(p, id, outcome);
    WithoutIs(p.pending, id);
    forall x ensures Done(q, x) <==> x == id || Done(p, x) {
      if Done(p, x) {
        var k :| 0 <= k < |p.settled| && p.settled[k].id == x;
        assert q.settled[k].id == x;
      }
      assert q.settled[|p.settled|].id == id;
    }
    hide FromOwnResponse;
    forall k | 0 <= k < |q.pending| ensures 1 <= q.pending[k] < q.nextId && !Done(q, q.pending[k]) && (p.ended ==> q.pending[k] >= p.endId) {
      assert q.pending[k] in q.pending;
      assert q.pending[k] in p.pending;
    }
    forall k | 0 <= k < |p.settled| ensures p.settled[k].id != id {
      assert Done(p, p.settled[k].id);
    }
  }

  lemma InvokeIs(p: Peer, m: string, aborted: bool)
    ensures Next(p, Invoke(m, aborted)) ==
              if aborted then p.(nextId := p.nextId + 1, settled := p.settled + [Settlement(p.nextId, Aborted)])
              else p.(nextId := p.nextId + 1, pending := p.pending + [p.nextId], out := p.out + [Request(p.nextId, m)])
  {
  }

  lemma InvokeKeepsInv(p: Peer, m: string, aborted: bool)
    requires Inv(p)
    ensures Inv(Next(p, Invoke(m, aborted)))
  {
    var q := Next(p, Invoke(m, aborted));
    InvokeIs(p, m, aborted);
    hide Next;
    forall x ensures Done(q, x) <==> (aborted && x == p.nextId) || Done(p, x) {
      if Done(p, x) {
        var k :| 0 <= k < |p.settled| && p.settled[k].id == x;
        assert q.settled[k].id == x;
      }
      if aborted { assert q.settled[|p.settled|].id == p.nextId; }
    }
    AbortedIsOwn(p.nextId);
    hide FromOwnResponse;
    hide Done;
    assert !aborted ==> q.pending[|p.pending|] == p.nextId;
  }

  lemma AbortedIsOwn(id: nat)
    ensures FromOwnResponse(Settlement(id, Aborted)) && FromOwnResponse(Settlement(id, TimedOut)) && FromOwnResponse(Settlement(id, ConnLost))
  {
  }

  lemma AllSettledAtEnd(p: Peer, id: nat)
    requires Inv(p) && 1 <= id < p.nextId
    ensures exists k | 0 <= k < |p.settled + AllLost(p.pending)| :: (p.settled + AllLost(p.pending))[k].id == id
  {
    var all := p.settled + AllLost(p.pending);
    if id in p.pending {
      var k :| 0 <= k < |p.pending| && p.pending[k] == id;
      assert all[|p.settled| + k].id == id;
    } else {
      assert Done(p, id);
      var k :| 0 <= k < |p.settled| && p.settled[k].id == id;
      assert all[k].id == id;
    }
  }

  lemma LostAreNew(p: Peer, k: nat, l: nat)
    requires Inv(p) && k < l < |p.settled + AllLost(p.pending)|
    ensures (p.settled + AllLost(p.pending))[k].id != (p.settled + AllLost(p.pending))[l].id
  {
    var n := |p.settled|;
    hide FromOwnResponse;
    if k < n <= l {
      assert !Done(p, p.pending[l - n]);
      assert Done(p, p.settled[k].id);
    }
  }

  lemma LostAreOwn(p: Peer, k: nat)
    requires Inv(p) && k < |p.settled + AllLost(p.pending)|
    ensures var s := (p.settled + AllLost(p.pending))[k]; 1 <= s.id < p.nextId && FromOwnResponse(s)
  {
    if k >= |p.settled| { AbortedIsOwn(p.pending[k - |p.settled|]); }
  }

  lemma StreamEndKeepsInv(p: Peer)
    requires Inv(p) && !p.ended
    ensures Inv(Next(p, StreamEnd))
  {
    var q := Next(p, StreamEnd);
    assert q.settled == p.settled + AllLost(p.pending) && q.pending == [] && q.nextId == p.nextId == q.endId && q.nextId >= 1;
    hide AllLost;
    hide FromOwnResponse;
    forall id | 1 <= id < q.nextId ensures Done(q, id) { AllSettledAtEnd(p, id); }
    forall k, l | 0 <= k < l < |q.settled| ensures q.settled[k].id != q.settled[l].id { LostAreNew(p, k, l); }
    forall k | 0 <= k < |q.settled| ensures 1 <= q.settled[k].id < q.nextId && FromOwnResponse(q.settled[k]) { LostAreOwn(p, k); }
    hide *;
    EndedInv(q);
  }

  lemma EndedInv(q: Peer)
    requires 1 <= q.endId <= q.nextId && q.pending == []
    requires forall id | 1 <= id < q.nextId :: Done(q, id)
    requires forall k, l | 0 <= k < l < |q.settled| :: q.settled[k].id != q.settled[l].id
    requires forall k | 0 <= k < |q.settled| :: 1 <= q.settled[k].id < q.nextId && FromOwnResponse(q.settled[k])
    ensures Inv(q)
  {
    hide Done;
    hide FromOwnResponse;
  }

  /** Classification as a response to call `id`, by the fields. */
  lemma ResponseIff(j: Json, id: nat)
    ensures Classify(j).Response? && Names(Classify(j).id, id) <==> AnswersCall(j, id)
    ensures AnswersCall(j, id) ==> Classify(j) == Response(NumberId(id as real), CarriesError(j))
  {
    hide IsFrameMessage;
  }

  lemma ReceiveKeepsInv(p: Peer, j: Json)
    requires Inv(p) && !p.ended
    ensures Inv(OnMessage(p, j))
  {
    var c := Classify(j);
    var q := OnMessage(p, j);
    if c.Response? && c.id.NumberId? && c.id.n >= 0.0 { ResponseIff(j, c.id.n.Floor); }
    hide AnswersCall;
    hide CarriesError;
    hide Classify;
    if c.Response? {
      if c.id.NumberId? && c.id.n >= 0.0 && c.id.n.Floor as real == c.id.n && c.id.n.Floor in p.pending {
        SettleKeepsInv(p, c.id.n.Floor, if c.isError then Rejected(j) else Resolved(j));
      }
    } else {
      TalkKeepsInv(p, q.incoming, q.out);
    }
  }

  /** Writing lines and tracking inbound requests do not concern the calls. */
  lemma TalkKeepsInv(p: Peer, incoming: seq<Incoming>, out: seq<Sent>)
    requires Inv(p)
    ensures Inv(p.(incoming := incoming, out := out))
  {
    var q := p.(incoming := incoming, out := out);
    forall id ensures Done(q, id) <==> Done(p, id) {
      if Done(p, id) {
        var k :| 0 <= k < |p.settled| && p.settled[k].id == id;
        assert q.settled[k].id == id;
      }
    }
    hide Done;
    hide FromOwnResponse;
  }

  lemma NextKeepsInv(p: Peer, step: Step)
    requires Inv(p) && Enabled(p, step)
    ensures Inv(Next(p, step))
  {
    var q := Next(p, step);
    match step {
      case Invoke(m, aborted) => InvokeKeepsInv(p, m, aborted);
      case Abort(id) => if id in p.pending { CancelKeepsInv(p, id, Aborted); }
      case Timeout(id) => if id in p.pending { CancelKeepsInv(p, id, TimedOut); }
      case Receive(j) => ReceiveKeepsInv(p, j);
      case StreamEnd => StreamEndKeepsInv(p);
      case _ =>
        hide Inv;
        TalkKeepsInv(p, q.incoming, q.out);
    }
  }

  lemma CancelKeepsInv(p: Peer, id: nat, outcome: Outcome)
    requires Inv(p) && id in p.pending && (outcome.Aborted? || outcome.TimedOut?)
    ensures Inv(Settle(p, id, outcome).(out := p.out + [Cancel(id)]))
  {
    hide Inv;
    AbortedIsOwn(id);
    SettleKeepsInv(p, id, outcome);
    TalkKeepsInv(Settle(p, id, outcome), p.incoming, p.out + [Cancel(id)]);
  }

  // ---------------------------------------------------------------- whole runs

  ghost predicate Runs(p: Peer, steps: seq<Step>, z: Peer)
    decreases |steps|
  {
    if steps == [] then z == p else Enabled(p, steps[0]) && Runs(Next(p, steps[0]), steps[1..], z)
  }

  lemma {:induction false} RunsKeepInv(p: Peer, steps: seq<Step>, z: Peer)
    requires Inv(p) && Runs(p, steps, z)
    ensures Inv(z)
    decreases |steps|
  {
    hide Inv;
    hide Enabled;
    if steps != [] {
      NextKeepsInv(p, steps[0]);
      RunsKeepInv(Next(p, steps[0]), steps[1..], z);
    }
  }

  /**
   In every run: ids are never reused, every call is pending or settled and
   settled once, a call settled by a message was settled by one carrying its own
   id, and once the stream has ended no call made before is pending.
   */
  lemma CallsSettleOnce(timeoutMs: nat, methods: set<string>, steps: seq<Step>, z: Peer)
    requires Runs(Start(timeoutMs, methods), steps, z)
    ensures forall k, l | 0 <= k < l < |z.settled| :: z.settled[k].id != z.settled[l].id
    ensures forall id | 1 <= id < z.nextId :: id in z.pending <==> !Done(z, id)
    ensures forall k | 0 <= k < |z.settled| :: 1 <= z.settled[k].id < z.nextId && FromOwnResponse(z.settled[k])
    ensures z.ended ==> forall id | id in z.pending :: id >= z.endId
  {
    RunsKeepInv(Start(timeoutMs, methods), steps, z);
    hide FromOwnResponse;
    forall id | 1 <= id < z.nextId ensures id in z.pending <==> !Done(z, id) {
      if id in z.pending { var k :| 0 <= k < |z.pending| && z.pending[k] == id; }
    }
  }

  /** An id handed out and not pending is never pending again. */
  lemma {:induction false} SettledStays(p: Peer, steps: seq<Step>, z: Peer, id: nat)
    requires Inv(p) && Runs(p, steps, z) && id < p.nextId && id !in p.pending
    ensures id !in z.pending
    decreases |steps|
  {
    if steps != [] {
      var q := Next(p, steps[0]);
      NextKeepsInv(p, steps[0]);
      NotPendingNext(p, steps[0], id);
      hide Inv;
      hide Enabled;
      hide Next;
      SettledStays(q, steps[1..], z, id);
    }
  }

  lemma NotPendingNext(p: Peer, step: Step, id: nat)
    requires Inv(p) && Enabled(p, step) && id < p.nextId && id !in p.pending
    ensures id < Next(p, step).nextId && id !in Next(p, step).pending
  {
    forall x ensures id !in Without(p.pending, x) {
      WithoutIs(p.pending, x);
    }
    hide Inv;
    hide Without;
  }

  /**
   Exactly what becomes of a call pending after the stream has ended, with
   timeouts off: it stays pending for ever unless it is aborted, and then not.
   */
  lemma {:induction false} LateCallsHang(p: Peer, steps: seq<Step>, z: Peer, id: nat)
    requires Inv(p) && p.ended && p.timeoutMs == 0 && id in p.pending && Runs(p, steps, z)
    ensures id in z.pending <==> Abort(id) !in steps
    decreases |steps|
  {
    if steps != [] {
      var q := Next(p, steps[0]);
      NextKeepsInv(p, steps[0]);
      assert id < p.nextId by { var k :| 0 <= k < |p.pending| && p.pending[k] == id; }
      if steps[0] == Abort(id) {
        WithoutIs(p.pending, id);
        hide Inv;
        SettledStays(q, steps[1..], z, id);
      } else {
        hide Inv;
        if steps[0].Abort? { WithoutKeepsOthers(p.pending, steps[0].id, id); }
        assert id in q.pending;
        LateCallsHang(q, steps[1..], z, id);
      }
    }
  }

  /** Such a call exists: one made after the stream has ended, in any state reached from the start. */
  lemma LateCallIsPending(methods: set<string>, steps: seq<Step>, z: Peer, m: string)
    requires Runs(Start(0, methods), steps, z) && z.ended
    ensures var p := Next(z, Invoke(m, false));
            Inv(p) && p.ended && p.timeoutMs == 0 && z.nextId in p.pending && z.nextId >= z.endId
  {
    RunsKeepInv(Start(0, methods), steps, z);
    RunsKeepTimeout(Start(0, methods), steps, z);
    NextKeepsInv(z, Invoke(m, false));
    var p := Next(z, Invoke(m, false));
    assert p.pending[|z.pending|] == z.nextId;
  }

  lemma {:induction false} RunsKeepTimeout(p: Peer, steps: seq<Step>, z: Peer)
    requires Runs(p, steps, z)
    ensures z.timeoutMs == p.timeoutMs
    decreases |steps|
  {
    if steps != [] { RunsKeepTimeout(Next(p, steps[0]), steps[1..], z); }
  }

  /** The shortest run to a hanging call. */
  lemma LateCallIsReached(methods: set<string>, m: string) returns (z: Peer)
    ensures Runs(Start(0, methods), [StreamEnd, Invoke(m, false)], z) && z.ended && z.pending == [1]
  {
    var p := Next(Start(0, methods), StreamEnd);
    z := Next(p, Invoke(m, false));
    assert [StreamEnd, Invoke(m, false)][1..] == [Invoke(m, false)];
    assert Runs(z, [Invoke(m, false)][1..], z);
    assert Runs(p, [Invoke(m, false)], z);
  }

  lemma {:induction false} WithoutKeepsOthers(s: seq<nat>, id: nat, x: nat)
    requires x in s && x != id
    ensures x in Without(s, id)
    decreases |s|
  {
    if s[0] != x { WithoutKeepsOthers(s[1..], id, x); }
  }

  /**
   Data frames, notifications (a method without an id) and response-shaped
   messages are never answered, whatever else they hold; a request is answered
   or handed to its handler, never both.
   */
  lemma OnlyRequestsAreAnswered(p: Peer, j: Json)
    requires j.JObject?
    ensures var method_ := "method" in j.fields && j.fields["method"].JString?;
            var id := "id" in j.fields;
            var responseShaped := !method_ && id && ("result" in j.fields || "error" in j.fields);
            var q := OnMessage(p, j);
            && (IsFrameMessage(j) || (method_ && !id) || responseShaped ==> q.out == p.out && q.incoming == p.incoming)
            && (q.incoming != p.incoming ==>
                  && !IsFrameMessage(j) && method_ && id && |q.incoming| == |p.incoming| + 1
                  && q.incoming[|p.incoming|].method_ == j.fields["method"].s
                  && (q.incoming[|p.incoming|].answered <==> q.out != p.out))
            && (q.settled != p.settled ==> responseShaped)
  {
    hide IsFrameMessage;
    if Classify(j).Invalid? || Classify(j).Call? {
      assert |OnMessage(p, j).incoming| >= |p.incoming|;
      assert |p.out + [ErrorReply(None, INVALID_REQUEST)]| > |p.out|;
    }
  }

  // ---------------------------------------------------------------- what a message does, by its fields

  lemma {:induction false} WithoutAt(s: seq<nat>, k: nat)
    requires Ascending(s) && k < |s|
    ensures Without(s, s[k]) == s[..k] + s[k + 1..]
    decreases |s|
  {
    if k == 0 {
      WithoutNone(s[1..], s[0]);
    } else {
      WithoutAt(s[1..], k - 1);
      assert s[..k] == [s[0]] + s[1..][..k - 1] && s[k + 1..] == s[1..][k..];
    }
  }

  lemma {:induction false} WithoutNone(s: seq<nat>, id: nat)
    requires forall i | 0 <= i < |s| :: s[i] != id
    ensures Without(s, id) == s
    decreases |s|
  {
    if s != [] { WithoutNone(s[1..], id); }
  }

  /** From `p` to `q` exactly the call that `j` answers was settled, if there is one. */
  ghost predicate SettledBy(p: Peer, q: Peer, j: Json) {
    && (forall k | 0 <= k < |p.pending| && AnswersCall(j, p.pending[k]) ::
          q == p.(pending := p.pending[..k] + p.pending[k + 1..],
                  settled := p.settled + [Settlement(p.pending[k], if CarriesError(j) then Rejected(j) else Resolved(j))]))
    && ((forall k | 0 <= k < |p.pending| :: !AnswersCall(j, p.pending[k])) ==> q.pending == p.pending && q.settled == p.settled)
  }

  /**
   A message that answers a pending call settles that call alone: rejected if it
   carries an error that is not null, resolved otherwise. No other message
   touches a call.
   */
  lemma ResponseSettles(p: Peer, j: Json)
    requires Inv(p)
    ensures SettledBy(p, OnMessage(p, j), j)
  {
    var c := Classify(j);
    if k :| 0 <= k < |p.pending| && AnswersCall(j, p.pending[k]) {
      ResponseIff(j, p.pending[k]);
      WithoutAt(p.pending, k);
      assert p.pending[k] in p.pending;
      OnlyOneAnswered(p, j, k);
      hide *;
      OwnResponse(p, p.pending[k], j);
    } else {
      hide Inv;
      if c.Response? && c.id.NumberId? && c.id.n >= 0.0 { ResponseIff(j, c.id.n.Floor); }
      hide Classify;
      hide AnswersCall;
    }
  }

  lemma OwnResponse(p: Peer, id: nat, j: Json)
    requires id in p.pending && Classify(j) == Response(NumberId(id as real), CarriesError(j))
    ensures OnMessage(p, j) == Settle(p, id, if CarriesError(j) then Rejected(j) else Resolved(j))
  {
    assert (id as real).Floor == id;
    hide Classify;
    hide CarriesError;
  }

  lemma OnlyOneAnswered(p: Peer, j: Json, k: nat)
    requires Inv(p) && k < |p.pending| && AnswersCall(j, p.pending[k])
    ensures forall l | 0 <= l < |p.pending| && AnswersCall(j, p.pending[l]) :: l == k
  {
    hide FromOwnResponse;
    hide Done;
    hide IsFrameMessage;
  }

  /** The id a reply goes to: a number or string as it stands, and 0 for anything else. */
  predicate Addresses(to: RpcId, id: Json) {
    if id.JNumber? then to == NumberId(id.n) else if id.JString? then to == TextId(id.s) else to == NumberId(0.0)
  }

  /**
   What any other message does. A request whose method has a handler is handed
   to it, one without is refused; a request of another version, and whatever is
   neither request, notification nor response, is answered as invalid; frames
   and notifications have no effect on the peer.
   */
  lemma MessageDecides(p: Peer, j: Json)
    ensures var q := OnMessage(p, j);
            var method_ := j.JObject? && "method" in j.fields && j.fields["method"].JString?;
            var request := !IsFrameMessage(j) && method_ && "id" in j.fields;
            var version := j.JObject? && "jsonrpc" in j.fields && j.fields["jsonrpc"] == JString("2.0");
            var answer := j.JObject? && !method_ && "id" in j.fields && ("result" in j.fields || "error" in j.fields);
            && (request && version ==>
                  var to, name := AsId(j.fields["id"]), j.fields["method"].s;
                  && Addresses(to, j.fields["id"])
                  && (name in p.methods ==> q == p.(incoming := p.incoming + [Incoming(to, name, false)]))
                  && (name !in p.methods ==> q == p.(incoming := p.incoming + [Incoming(to, name, true)], out := p.out + [ErrorReply(Some(to), -32601)])))
            && (request && !version ==>
                  var to := AsId(j.fields["id"]);
                  Addresses(to, j.fields["id"]) && q == p.(out := p.out + [ErrorReply(Some(to), -32600)]))
            && (IsFrameMessage(j) || (method_ && !request) ==> q == p)
            && (!IsFrameMessage(j) && !method_ && !answer ==> q == p.(out := p.out + [ErrorReply(None, -32600)]))
            && (!IsFrameMessage(j) && answer ==> q.out == p.out && q.incoming == p.incoming)
  {
    hide IsFrameMessage;
    hide Without;
  }

  /** A line that is no JSON is answered as such, to nobody in particular; it concerns no call and no request. */
  lemma BadLineIsAnswered(p: Peer)
    requires Enabled(p, Step.BadLine)
    ensures Next(p, Step.BadLine) == p.(out := p.out + [ErrorReply(None, -32700)])
  {
  }

  // ---------------------------------------------------------------- every request is answered once

  predicate RepliesTo(line: Sent, id: RpcId) {
    (line.Result? && line.to == id)
    || (line.ErrorReply? && line.toWhom == Some(id) && line.code in {METHOD_NOT_FOUND, INTERNAL_ERROR})
  }

  /** How many replies to requests with this id have been written. */
  function Replies(out: seq<Sent>, id: RpcId): nat {
    if out == [] then 0 else Replies(out[..|out| - 1], id) + if RepliesTo(out[|out| - 1], id) then 1 else 0
  }

  /** How many requests with this id count as answered. */
  function AnsweredTo(incoming: seq<Incoming>, id: RpcId): nat {
    if incoming == [] then 0
    else AnsweredTo(incoming[..|incoming| - 1], id) + if incoming[|incoming| - 1].answered && incoming[|incoming| - 1].id == id then 1 else 0
  }

  lemma RepliesMore(out: seq<Sent>, line: Sent, id: RpcId)
    ensures Replies(out + [line], id) == Replies(out, id) + if RepliesTo(line, id) then 1 else 0
  {
    assert (out + [line])[..|out|] == out;
  }

  lemma RepliesGrow(out: seq<Sent>, more: seq<Sent>, id: RpcId)
    requires out <= more && |more| <= |out| + 1
    ensures Replies(more, id) == Replies(out, id) + if |more| > |out| && RepliesTo(more[|out|], id) then 1 else 0
  {
    if |more| > |out| { assert more[..|out|] == out; } else { assert more == out; }
  }

  lemma AnsweredMore(incoming: seq<Incoming>, r: Incoming, id: RpcId)
    ensures AnsweredTo(incoming + [r], id) == AnsweredTo(incoming, id) + if r.answered && r.id == id then 1 else 0
  {
    assert (incoming + [r])[..|incoming|] == incoming;
  }

  lemma {:induction false} AnsweredNow(incoming: seq<Incoming>, k: nat, id: RpcId)
    requires k < |incoming| && !incoming[k].answered
    ensures AnsweredTo(incoming[k := incoming[k].(answered := true)], id) == AnsweredTo(incoming, id) + if incoming[k].id == id then 1 else 0
    decreases |incoming|
  {
    var n, later := |incoming| - 1, incoming[k := incoming[k].(answered := true)];
    if k < n {
      AnsweredNow(incoming[..n], k, id);
      assert later[..n] == incoming[..n][k := incoming[k].(answered := true)];
    } else {
      assert later[..n] == incoming[..n];
    }
  }

  ghost predicate Balanced(p: Peer) {
    forall id :: Replies(p.out, id) == AnsweredTo(p.incoming, id)
  }

  lemma StepReplies(p: Peer, step: Step, id: RpcId)
    requires Enabled(p, step)
    ensures Replies(Next(p, step).out, id) - Replies(p.out, id) == AnsweredTo(Next(p, step).incoming, id) - AnsweredTo(p.incoming, id)
  {
    hide Replies;
    hide AnsweredTo;
    hide Classify;
    hide Without;
    hide OnResponse;
    hide AllLost;
    var q := Next(p, step);
    match step {
      case Receive(j) =>
        MessageReplies(p, j, id);
      case Answer(k, ok) =>
        RepliesMore(p.out, q.out[|p.out|], id);
        AnsweredNow(p.incoming, k, id);
      case _ =>
        hide OnMessage;
        RepliesGrow(p.out, q.out, id);
    }
  }

  lemma MessageReplies(p: Peer, j: Json, id: RpcId)
    ensures var q := OnMessage(p, j);
            Replies(q.out, id) - Replies(p.out, id) == AnsweredTo(q.incoming, id) - AnsweredTo(p.incoming, id)
  {
    hide Replies;
    hide AnsweredTo;
    hide Classify;
    hide Without;
    var q := OnMessage(p, j);
    RepliesGrow(p.out, q.out, id);
    if |q.incoming| > |p.incoming| { AnsweredMore(p.incoming, q.incoming[|p.incoming|], id); }
  }

  lemma NextKeepsBalanced(p: Peer, step: Step)
    requires Balanced(p) && Enabled(p, step)
    ensures Balanced(Next(p, step))
  {
    var q := Next(p, step);
    forall id ensures Replies(q.out, id) == AnsweredTo(q.incoming, id) {
      assert Replies(p.out, id) == AnsweredTo(p.incoming, id);
      StepReplies(p, step, id);
    }
  }

  /**
   In every run: for each id as many replies went out as requests with that id
   were answered, so no request is answered twice and none is answered under
   another's id.
   */
  lemma {:induction false} RepliesMatchRequests(p: Peer, steps: seq<Step>, z: Peer)
    requires Balanced(p) && Runs(p, steps, z)
    ensures forall id :: Replies(z.out, id) == AnsweredTo(z.incoming, id)
    decreases |steps|
  {
    hide Enabled;
    if steps != [] {
      NextKeepsBalanced(p, steps[0]);
      RepliesMatchRequests(Next(p, steps[0]), steps[1..], z);
    }
  }

  lemma StartIsBalanced(timeoutMs: nat, methods: set<string>)
    ensures Balanced(Start(timeoutMs, methods)) && CancelsFit(Start(timeoutMs, methods))
  {
  }

  // ---------------------------------------------------------------- what is said about a call

  predicate WasSent(out: seq<Sent>, id: nat) {
    exists k | 0 <= k < |out| :: out[k].Request? && out[k].id == id
  }

  predicate WasCancelled(out: seq<Sent>, id: nat) {
    exists k | 0 <= k < |out| :: out[k] == Cancel(id)
  }

  predicate GivenUp(settled: seq<Settlement>, id: nat) {
    exists k | 0 <= k < |settled| :: settled[k].id == id && (settled[k].outcome.Aborted? || settled[k].outcome.TimedOut?)
  }

  /** Pending calls were sent; and a cancel was sent for exactly the calls that were sent and then given up. */
  ghost predicate CancelsFit(p: Peer) {
    && (forall id: nat | id in p.pending :: WasSent(p.out, id))
    && (forall id: nat | WasSent(p.out, id) :: id < p.nextId)
    && (forall id: nat :: WasCancelled(p.out, id) <==> WasSent(p.out, id) && GivenUp(p.settled, id))
  }

  lemma LineAdded(out: seq<Sent>, line: Sent, id: nat)
    ensures WasSent(out + [line], id) <==> WasSent(out, id) || (line.Request? && line.id == id)
    ensures WasCancelled(out + [line], id) <==> WasCancelled(out, id) || line == Cancel(id)
  {
    var more := out + [line];
    assert forall k | 0 <= k < |out| :: more[k] == out[k];
    assert more[|out|] == line;
  }

  lemma SettlementAdded(settled: seq<Settlement>, s: Settlement, id: nat)
    ensures GivenUp(settled + [s], id) <==> GivenUp(settled, id) || (s.id == id && (s.outcome.Aborted? || s.outcome.TimedOut?))
  {
    var more := settled + [s];
    assert forall k | 0 <= k < |settled| :: more[k] == settled[k];
    assert more[|settled|] == s;
  }

  lemma LossesAdded(settled: seq<Settlement>, pending: seq<nat>, id: nat)
    ensures GivenUp(settled + AllLost(pending), id) <==> GivenUp(settled, id)
  {
    var more := settled + AllLost(pending);
    assert forall k | 0 <= k < |settled| :: more[k] == settled[k];
    assert forall k | |settled| <= k < |more| :: more[k].outcome.ConnLost?;
  }

  lemma GivenUpIsDone(p: Peer, id: nat)
    requires Inv(p) && GivenUp(p.settled, id)
    ensures id < p.nextId && id !in p.pending
  {
    hide FromOwnResponse;
    var k :| 0 <= k < |p.settled| && p.settled[k].id == id;
    assert Done(p, id);
    PendingIsOpen(p, id);
  }

  lemma PendingIsOpen(p: Peer, id: nat)
    requires Inv(p)
    ensures id in p.pending ==> !Done(p, id)
  {
    hide FromOwnResponse;
    hide Done;
  }

  /** What a step adds: at most one line, at most one settlement, or all calls lost. */
  lemma StepShape(p: Peer, step: Step)
    requires Inv(p) && Enabled(p, step)
    ensures var q := Next(p, step);
            && q.nextId >= p.nextId
            && (forall id | id in q.pending && id !in p.pending :: step.Invoke? && id == p.nextId && q.out == p.out + [Request(id, step.method_)])
            && (q.settled == p.settled || (|q.settled| == |p.settled| + 1 && p.settled <= q.settled) || (step.StreamEnd? && q.settled == p.settled + AllLost(p.pending)))
            && (q.out == p.out || (|q.out| == |p.out| + 1 && p.out <= q.out))
  {
    forall x, y | y in Without(p.pending, x) ensures y in p.pending { WithoutIs(p.pending, x); }
    hide Inv;
    hide Classify;
    hide AllLost;
  }

  lemma NextKeepsCancels(p: Peer, step: Step)
    requires Inv(p) && CancelsFit(p) && Enabled(p, step)
    ensures CancelsFit(Next(p, step))
  {
    var q := Next(p, step);
    StepShape(p, step);
    forall id: nat
      ensures id in q.pending ==> WasSent(q.out, id)
      ensures WasSent(q.out, id) ==> id < q.nextId
      ensures WasCancelled(q.out, id) <==> WasSent(q.out, id) && GivenUp(q.settled, id)
    {
      CancelsStep(p, step, id);
    }
  }

  lemma CancelsStep(p: Peer, step: Step, id: nat)
    requires Inv(p) && CancelsFit(p) && Enabled(p, step)
    ensures var q := Next(p, step);
            && (id in q.pending ==> WasSent(q.out, id))
            && (WasSent(q.out, id) ==> id < q.nextId)
            && (WasCancelled(q.out, id) <==> WasSent(q.out, id) && GivenUp(q.settled, id))
  {
    var q := Next(p, step);
    StepShape(p, step);
    if GivenUp(p.settled, id) { GivenUpIsDone(p, id); }
    if |q.out| > |p.out| { LineAdded(p.out, q.out[|p.out|], id); assert q.out == p.out + [q.out[|p.out|]]; }
    if |q.settled| == |p.settled| + 1 { SettlementAdded(p.settled, q.settled[|p.settled|], id); assert q.settled == p.settled + [q.settled[|p.settled|]]; }
    LossesAdded(p.settled, p.pending, id);
    hide Inv;
    hide WasSent;
    hide WasCancelled;
    hide GivenUp;
    hide Classify;
    hide AllLost;
    hide Without;
  }

  /** In every run a cancel goes out for exactly the calls whose request went out and that were then aborted or timed out. */
  lemma {:induction false} CancelsMatchCalls(p: Peer, steps: seq<Step>, z: Peer)
    requires Inv(p) && CancelsFit(p) && Runs(p, steps, z)
    ensures forall id: nat :: WasCancelled(z.out, id) <==> WasSent(z.out, id) && GivenUp(z.settled, id)
    decreases |steps|
  {
    hide Inv;
    hide Enabled;
    if steps != [] {
      NextKeepsInv(p, steps[0]);
      NextKeepsCancels(p, steps[0]);
      CancelsMatchCalls(Next(p, steps[0]), steps[1..], z);
    }
  }

  // ---------------------------------------------------------------- the object

  class JsonRpcPeer {
    const timeoutMs: nat
    var methods: set<string>
    var nextId: nat
    /** Keys of the pending map, oldest first. */
    var pending: seq<nat>
    var settled: seq<Settlement>
    var incoming: seq<Incoming>
    var out: seq<Sent>
    var ended: bool
    ghost var endId: nat

    ghost function AsPeer(): Peer
      reads this
    {
      Peer(timeoutMs, methods, nextId, pending, settled, incoming, out, ended, endId)
    }

    ghost predicate Valid()
      reads this
    {
      Inv(AsPeer())
    }

    constructor (timeoutMs: nat, methods: set<string>)
      ensures Valid() && AsPeer() == Start(timeoutMs, methods)
    {
      this.timeoutMs, this.methods := timeoutMs, methods;
      nextId, pending, settled, incoming, out, ended, endId := 1, [], [], [], [], false, 1;
    }

    /** Start a call; one whose signal is already aborted uses up an id and is settled at once. */
    method Invoke(method_: string, aborted: bool) returns (id: nat)
      requires Valid()
      modifies this
      ensures Valid() && AsPeer() == Next(old(AsPeer()), Step.Invoke(method_, aborted)) && id == old(nextId)
    {
      hide Inv;
      hide Next;
      InvokeKeepsInv(AsPeer(), method_, aborted);
      InvokeIs(AsPeer(), method_, aborted);
      id := nextId;
      nextId := nextId + 1;
      if aborted {
        settled := settled + [Settlement(id, Aborted)];
        assert AsPeer() == old(AsPeer()).(nextId := id + 1, settled := settled);
        return;
      }
      pending := pending + [id];
      out := out + [Request(id, method_)];
      assert AsPeer() == old(AsPeer()).(nextId := id + 1, pending := pending, out := out);
    }

    /** The signal or the timer fired: settle the call and tell the other side, unless it is settled already. */
    method CancelCall(id: nat, timeout: bool)
      requires Valid() && (timeout ==> timeoutMs > 0)
      modifies this
      ensures Valid() && AsPeer() == Next(old(AsPeer()), if timeout then Timeout(id) else Abort(id))
    {
      hide Inv;
      NextKeepsInv(AsPeer(), if timeout then Timeout(id) else Abort(id));
      if id !in pending { return; }
      pending := Without(pending, id);
      out := out + [Cancel(id)];
      settled := settled + [Settlement(id, if timeout then TimedOut else Aborted)];
    }

    method HandleMessage(j: Json)
      requires Valid() && !ended
      modifies this
      ensures Valid() && AsPeer() == Next(old(AsPeer()), Receive(j))
      ensures SettledBy(old(AsPeer()), AsPeer(), j)
    {
      hide SettledBy;
      hide Inv;
      ResponseSettles(AsPeer(), j);
      NextKeepsInv(AsPeer(), Receive(j));
      hide Classify;
      match Classify(j)
      case Ignored =>
      case Note(_) =>
      case Invalid(to) => out := out + [ErrorReply(to, INVALID_REQUEST)];
      case Call(id, m) =>
        if m in methods {
          incoming := incoming + [Incoming(id, m, false)];
        } else {
          incoming := incoming + [Incoming(id, m, true)];
          out := out + [ErrorReply(Some(id), METHOD_NOT_FOUND)];
        }
      case Response(id, isError) => HandleResponse(id, isError, j);
    }

    /** The handler of request `k` has finished: send its value, or an error for its failure, under the request's id. */
    method Reply(k: nat, ok: Option<Json>)
      requires Valid() && k < |incoming| && !incoming[k].answered
      modifies this
      ensures Valid() && AsPeer() == Next(old(AsPeer()), Answer(k, ok))
      ensures out == old(out) + [if ok.Some? then Result(old(incoming)[k].id, ok.value) else ErrorReply(Some(old(incoming)[k].id), -32603)]
    {
      hide Inv;
      NextKeepsInv(AsPeer(), Answer(k, ok));
      var r := incoming[k];
      incoming := incoming[k := r.(answered := true)];
      if ok.Some? {
        out := out + [Result(r.id, ok.value)];
      } else {
        out := out + [ErrorReply(Some(r.id), INTERNAL_ERROR)];
      }
    }

    /** Settle the pending call the response names, if there is one. */
    method HandleResponse(id: RpcId, isError: bool, j: Json)
      modifies this
      ensures AsPeer() == OnResponse(old(AsPeer()), id, isError, j)
    {
      if !(id.NumberId? && id.n >= 0.0 && id.n.Floor as real == id.n) { return; }
      var call: nat := id.n.Floor;
      if call !in pending { return; }
      pending := Without(pending, call);
      settled := settled + [Settlement(call, if isError then Rejected(j) else Resolved(j))];
    }

    /** The stream has ended: every pending call is lost. */
    method Teardown()
      requires Valid() && !ended
      modifies this
      ensures Valid() && AsPeer() == Next(old(AsPeer()), StreamEnd)
    {
      hide Inv;
      StreamEndKeepsInv(AsPeer());
      hide OnMessage;
      hide Settle;
      hide AllLost;
      ghost var before := AsPeer();
      assert AllLost([]) == [] by { NoneLost(); }
      for i := 0 to |pending|
        invariant AsPeer() == before.(settled := before.settled + AllLost(before.pending[..i]))
      {
        OneMoreLost(before.pending, i);
        settled := settled + [Settlement(pending[i], ConnLost)];
      }
      assert before.pending[..|pending|] == before.pending;
      pending, ended, endId := [], true, nextId;
    }
  }
}
