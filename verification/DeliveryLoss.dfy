/**
 Exactly when event delivery is complete, and a run in which it is not: events
 dispatched before the handle is subscribed are lost once a later one is
 delivered (client.ts, broker.ts).
 */
module DeliveryLoss {
  import opened Wrappers
  import opened Broker
  import opened Delivery

  /** From a subscription that missed events, moves after which the delivered events have a hole. */
  lemma {:induction false} LossWitness(n: Net) returns (moves: seq<Move>)
    requires Inv(n) && n.up && n.phase == Live && n.handle.delivered == [] && n.handle.cursor < n.seen
    requires n.me in n.broker.attached && Chain(n.wire, n.seen, -2, n.log) && Tail(n.wire, n.seen) == |n.log| - 1
    ensures !Complete(Delivery.Run(n, moves).handle, Delivery.Run(n, moves).log)
    decreases |n.wire|
  {
    if n.wire == [] {
      var m := Next(n, Append("", NO_BODY));
      assert m.wire == [Note(Feed(Event(|n.log|, "", NO_BODY)))];
      moves := [Append("", NO_BODY), Dispatch];
      assert Delivery.Run(n, moves) == Delivery.Run(m, [Dispatch]) == Next(m, Dispatch);
    } else {
      var m := Next(n, Dispatch);
      if n.wire[0].Note? && n.wire[0].notice.Feed? {
        moves := [Dispatch];
        assert Delivery.Run(n, moves) == Delivery.Run(m, []) == m;
      } else {
        NextKeepsInv(n, Dispatch);
        var rest := LossWitness(m);
        moves := [Dispatch] + rest;
        assert moves[1..] == rest;
      }
    }
  }

  /**
   Exactly when delivery is complete whatever happens next: the handle was
   subscribed before any event beyond the attach result was dispatched.
   */
  lemma CompleteIffNothingMissed(n: Net)
    requires Inv(n) && n.phase.Answered?
    ensures var m := Next(n, Subscribe);
            m.missed == 0 <==> forall moves :: Complete(Delivery.Run(m, moves).handle, Delivery.Run(m, moves).log)
  {
    var m := Next(n, Subscribe);
    ChainGrowsOnSubscribe(n);
    if m.missed == 0 {
      forall moves ensures Complete(Delivery.Run(m, moves).handle, Delivery.Run(m, moves).log) {
        RunKeepsInv(m, moves);
        DeliveredOnlyGrows(m, moves);
      }
    } else {
      var moves := LossWitness(m);
    }
  }

  lemma ServeReadIs(n: Net)
    requires Inv(n) && n.up && n.requests == [First(Read, false)]
    ensures var m := Next(n, Serve(""));
            m == n.(broker := m.broker, requests := [], reply := Some(|n.log| - 1), seen := |n.log| - 1)
            && n.me in m.broker.attached
  {
    var step := Attach(n.me.client, n.me.session, Some(n.log), None, Read, false, "");
    assert Told(n.broker, step, n.me) == [];
  }

  lemma AppendIs(n: Net, kind: string)
    requires n.up && n.me in n.broker.attached
    ensures var e := Event(|n.log|, kind, NO_BODY);
            Next(n, Append(kind, NO_BODY)) == n.(log := n.log + [e], wire := n.wire + [Note(Feed(e))])
  {
    var step := HostEvent(n.me.session, Event(|n.log|, kind, NO_BODY));
    assert Notes(Told(n.broker, step, n.me)) == [Note(Feed(step.e))];
  }

  /** The reply is flushed after the event, both are dispatched, and the handle subscribes too late for the event. */
  lemma OvertakenReply(n: Net, e: Event)
    requires n.up && n.phase == Asking && n.reply == Some(-1) && n.wire == [Note(Feed(e))]
    ensures var m := Next(Next(Next(Next(n, Flush), Dispatch), Dispatch), Subscribe);
            m == n.(reply := None, wire := [], phase := Live, handle := NewHandle(-1), seen := e.seq_, missed := e.seq_ + 1)
  {
    var n4 := Next(n, Flush);
    assert n4 == n.(reply := None, wire := [Note(Feed(e)), Reply(-1)]);
    var n5 := Next(n4, Dispatch);
    assert n5 == n4.(seen := e.seq_, wire := [Reply(-1)]);
    var n6 := Next(n5, Dispatch);
    assert n6 == n5.(wire := [], phase := Answered(-1));
  }

  lemma AskAndServe(n: Net)
    requires Initial(n) && n.log == []
    ensures var m := Next(Next(n, Ask(Read, false)), Serve(""));
            && m.up && m.me in m.broker.attached && m.log == [] && m.wire == [] && m.reply == Some(-1) && m.phase == Asking
  {
    NextKeepsInv(n, Ask(Read, false));
    ServeReadIs(Next(n, Ask(Read, false)));
  }

  lemma DispatchLive(n: Net, e: Event)
    requires n.up && n.phase == Live && n.wire == [Note(Feed(e))] && n.handle == NewHandle(-1) && e.seq_ == 1
    ensures var z := Next(n, Dispatch);
            z.phase == Live && z.log == n.log && z.handle.initial == -1 && z.handle.delivered == [e]
  {
  }

  /** A reachable loss: an event that overtakes the attach reply is dropped, the next one is delivered. */
  lemma LossIsReachable(n: Net) returns (moves: seq<Move>)
    requires Initial(n) && n.log == []
    ensures var z := Delivery.Run(n, moves);
            && z.phase == Live && z.handle.initial == -1
            && z.log == [Event(0, "a", NO_BODY), Event(1, "b", NO_BODY)] && z.handle.delivered == [Event(1, "b", NO_BODY)]
  {
    moves := [Ask(Read, false), Serve(""), Append("a", NO_BODY), Flush, Dispatch, Dispatch, Subscribe, Append("b", NO_BODY), Dispatch];
    AskAndServe(n);
    var n2 := Next(Next(n, moves[0]), moves[1]);
    AppendIs(n2, "a");
    var n3 := Next(n2, moves[2]);
    OvertakenReply(n3, Event(0, "a", NO_BODY));
    var n7 := Next(Next(Next(Next(n3, Flush), Dispatch), Dispatch), Subscribe);
    AppendIs(n7, "b");
    DispatchLive(Next(n7, moves[7]), Event(1, "b", NO_BODY));
    RunIs(n, moves, Next(n, moves[0]), n2, n3, Next(n3, Flush), Next(Next(n3, Flush), Dispatch),
          Next(Next(Next(n3, Flush), Dispatch), Dispatch), n7, Next(n7, moves[7]));
  }

  lemma RunIs(n: Net, moves: seq<Move>, n1: Net, n2: Net, n3: Net, n4: Net, n5: Net, n6: Net, n7: Net, n8: Net)
    requires |moves| == 9 && n1 == Next(n, moves[0]) && n2 == Next(n1, moves[1]) && n3 == Next(n2, moves[2])
    requires n4 == Next(n3, moves[3]) && n5 == Next(n4, moves[4]) && n6 == Next(n5, moves[5])
    requires n7 == Next(n6, moves[6]) && n8 == Next(n7, moves[7])
    ensures Delivery.Run(n, moves) == Next(n8, moves[8])
  {
    RunTwo(n, moves); RunTwo(n2, moves[2..]); RunTwo(n4, moves[4..]); RunTwo(n6, moves[6..]);
    assert moves[2..][2..] == moves[4..] && moves[4..][2..] == moves[6..] && moves[6..][2..] == moves[8..];
  }

  lemma RunTwo(n: Net, moves: seq<Move>)
    requires |moves| >= 2
    ensures Delivery.Run(n, moves) == Delivery.Run(Next(Next(n, moves[0]), moves[1]), moves[2..])
  {
    assert moves[1..][1..] == moves[2..];
  }
}
