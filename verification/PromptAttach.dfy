/**
 Delivery when no event comes between an attach and its reply on the wire, nor
 between the dispatch of the reply and the handle's subscription: then nothing
 is ever missed and delivery is exact.
 */
module PromptAttach {
  import opened Wrappers
  import opened Broker
  import opened Delivery

  /** A move, with the reply written as soon as an attach was served and the handle subscribed as soon as it was dispatched. */
  function Prompt(n: Net, move: Move): Net {
    var m := Next(n, move);
    if m.phase == Asking && m.reply.Some? then Next(m, Flush)
    else if m.phase.Answered? then Next(m, Subscribe)
    else m
  }

  function PromptRun(n: Net, moves: seq<Move>): Net
    decreases |moves|
  {
    if moves == [] then n else PromptRun(Prompt(n, moves[0]), moves[1..])
  }

  /** The reply comes before any event, and names the last event the channel has dispatched. */
  predicate ReplyFirst(wire: seq<Message>, last: int)
    decreases |wire|
  {
    wire != [] && (wire[0] == Reply(last) || (wire[0].Note? && wire[0].notice.Control? && ReplyFirst(wire[1..], last)))
  }

  lemma {:induction false} ReplyStaysFirst(wire: seq<Message>, more: seq<Message>, last: int)
    requires ReplyFirst(wire, last)
    ensures ReplyFirst(wire + more, last)
    decreases |wire|
  {
    if wire[0] != Reply(last) {
      assert (wire + more)[1..] == wire[1..] + more;
      ReplyStaysFirst(wire[1..], more, last);
    }
  }

  lemma {:induction false} ReplyBehindControls(told: seq<Notice>, last: int)
    requires forall n <- told :: n.Control?
    ensures ReplyFirst(Notes(told) + [Reply(last)], last)
    decreases |told|
  {
    if told == [] {
      assert Notes(told) + [Reply(last)] == [Reply(last)];
    } else {
      assert (Notes(told) + [Reply(last)])[1..] == Notes(told[1..]) + [Reply(last)];
      ReplyBehindControls(told[1..], last);
    }
  }

  /** What holds between prompt moves, besides the invariant of all runs. */
  ghost predicate Tidy(n: Net) {
    && n.reply.None? && !n.phase.Answered?
    && (n.phase == Asking && n.requests == [] ==> ReplyFirst(n.wire, n.seen))
    && (n.phase == Live || n.phase == Gone ==> n.missed == 0)
  }

  lemma PromptKeepsInv(n: Net, move: Move)
    requires Inv(n)
    ensures Inv(Prompt(n, move))
  {
    hide Inv;
    hide Next;
    NextKeepsInv(n, move);
    NextKeepsInv(Next(n, move), Flush);
    NextKeepsInv(Next(n, move), Subscribe);
  }

  /** Moves that put messages on the wire keep a reply first, and touch neither phase nor reply. */
  lemma BrokerStepIsTidy(n: Net, step: Step)
    requires Tidy(n) && n.up
    ensures Tidy(BrokerStep(n, step))
  {
    hide Told;
    hide Apply;
    if n.phase == Asking && n.requests == [] { ReplyStaysFirst(n.wire, Notes(Told(n.broker, step, n.me)), n.seen); }
  }

  lemma ServeFirstIsTidy(n: Net, now: string)
    requires Inv(n) && Tidy(n) && n.up && n.requests != [] && n.requests[0].First?
    ensures Tidy(Prompt(n, Serve(now)))
  {
    var r := n.requests[0];
    var told := Told(n.broker, Attach(n.me.client, n.me.session, Some(n.log), None, r.mode, r.force, now), n.me);
    FirstTells(n.broker, n.me, n.log, r.mode, r.force, now);
    assert n.phase == Asking && n.wire == [] && n.wire + Notes(told) == Notes(told);
    hide Told;
    hide Apply;
    hide AttachOutcome;
    hide Inv;
    assert forall y <- told :: y.Control?;
    ReplyBehindControls(told, |n.log| - 1);
  }

  lemma ServeIsTidy(n: Net, now: string)
    requires Inv(n) && Tidy(n)
    ensures Tidy(Prompt(n, Serve(now)))
  {
    if n.up && n.requests != [] {
      if n.requests[0].First? {
        ServeFirstIsTidy(n, now);
      } else {
        assert n.phase != Asking;
        hide Inv;
        hide Told;
        hide Apply;
        assert Next(n, Serve(now)).phase == n.phase && Next(n, Serve(now)).missed == n.missed && Next(n, Serve(now)).reply == n.reply;
      }
    }
  }

  lemma DispatchIsTidy(n: Net)
    requires Inv(n) && Tidy(n)
    ensures Tidy(Prompt(n, Dispatch))
  {
    if n.up && n.wire != [] && n.phase == Asking { assert n.requests == []; }
    hide Inv;
  }

  lemma AppendIsTidy(n: Net, kind: string, body: Body)
    requires Inv(n) && Tidy(n)
    ensures Tidy(Prompt(n, Append(kind, body)))
  {
    if n.up { BrokerStepIsTidy(n, HostEvent(n.me.session, Event(|n.log|, kind, body))); }
    else { assert n.phase != Asking; }
    hide Inv;
    hide Told;
    hide Apply;
  }

  lemma OthersIsTidy(n: Net, step: Step)
    requires Inv(n) && Tidy(n)
    ensures Tidy(Prompt(n, Others(step)))
  {
    if n.up { BrokerStepIsTidy(n, step); } else { assert n.phase != Asking; }
    hide Inv;
    hide Told;
    hide Apply;
  }

  /** The other moves put nothing on the wire. */
  lemma LocalIsTidy(n: Net, move: Move)
    requires Inv(n) && Tidy(n) && !move.Append? && !move.Others? && !move.Serve? && !move.Dispatch?
    ensures Tidy(Prompt(n, move))
  {
    assert !n.up ==> n.phase != Asking;
    hide Inv;
    hide Apply;
    hide ReplyFirst;
  }

  lemma PromptIsTidy(n: Net, move: Move)
    requires Inv(n) && Tidy(n)
    ensures Tidy(Prompt(n, move))
  {
    hide *;
    match move
    case Append(kind, body) => AppendIsTidy(n, kind, body);
    case Others(step) => OthersIsTidy(n, step);
    case Serve(now) => ServeIsTidy(n, now);
    case Dispatch => DispatchIsTidy(n);
    case _ => LocalIsTidy(n, move);
  }

  lemma {:induction false} PromptRunKeeps(n: Net, moves: seq<Move>)
    requires Inv(n) && Tidy(n)
    ensures Inv(PromptRun(n, moves)) && Tidy(PromptRun(n, moves))
    decreases |moves|
  {
    hide Inv;
    hide Tidy;
    hide Prompt;
    if moves != [] {
      PromptKeepsInv(n, moves[0]);
      PromptIsTidy(n, moves[0]);
      PromptRunKeeps(Prompt(n, moves[0]), moves[1..]);
    }
  }

  /**
   Under every interleaving of appends, attaches, escalations, dropped
   connections, re-attaches and deliveries in which attach, reply and
   subscription are not overtaken, a handle passes on exactly the log entries
   after its attach head through its cursor, each once and in order.
   */
  lemma PromptDeliveryIsExact(n: Net, moves: seq<Move>)
    requires Initial(n)
    ensures var z := PromptRun(n, moves);
            z.phase == Live || z.phase == Gone ==>
              && -1 <= z.handle.initial <= z.handle.cursor < |z.log|
              && z.handle.delivered == z.log[z.handle.initial + 1..z.handle.cursor + 1]
  {
    InitialIsTidy(n);
    hide Channel;
    hide Next;
    hide Sound;
    PromptRunKeeps(n, moves);
  }

  /** The same, once everything in flight is dispatched: the whole log behind the attach head. */
  lemma PromptDeliveryIsWhole(n: Net, moves: seq<Move>)
    requires Initial(n)
    ensures var m := PromptRun(n, moves);
            m.up && m.phase == Live && m.me in m.broker.attached ==>
              var z := Delivery.Run(m, DispatchAll(|m.wire|));
              -1 <= m.handle.initial < |m.log| && z.wire == [] && z.log == m.log && z.handle.delivered == m.log[m.handle.initial + 1..]
  {
    InitialIsTidy(n);
    PromptRunKeeps(n, moves);
    hide Inv;
    hide PromptRun;
    var m := PromptRun(n, moves);
    if m.up && m.phase == Live && m.me in m.broker.attached { DispatchingDelivers(m); }
  }

  lemma InitialIsTidy(n: Net)
    requires Initial(n)
    ensures Inv(n) && Tidy(n)
  {
  }
}
