/**
 The broker as it is built: two attachment indexes, host subscriptions, leases
 and connections, updated in place. `AsView` forgets the indexes; `Valid` says
 how they agree. Each method changes the view as its function in `Broker` does.
 */
module BrokerService {
  import opened Wrappers
  import opened Broker

  type SubId = int
  datatype Subscription = Subscription(client: ClientId, session: SessionId)

  type BySession = map<SessionId, set<ClientId>>
  type ByClient = map<ClientId, map<SessionId, SubId>>

  /** The client index lists the attachment (c, s). */
  predicate Holds(m: ByClient, c: ClientId, s: SessionId) {
    c in m && s in m[c]
  }

  /** The session index lists the attachment (c, s). */
  predicate Lists(m: BySession, c: ClientId, s: SessionId) {
    s in m && c in m[s]
  }

  /** The two indexes are inverse to each other and no session keeps an empty set. */
  ghost predicate IndexesAgree(a: BySession, m: ByClient) {
    && (forall s <- a :: a[s] != {})
    && (forall c, s :: Lists(a, c, s) <==> Holds(m, c, s))
  }

  /** Live host subscriptions and attachments are in one-to-one correspondence. */
  ghost predicate SubscriptionsMatch(m: ByClient, subs: map<SubId, Subscription>) {
    && (forall c, s :: Holds(m, c, s) ==> m[c][s] in subs && subs[m[c][s]] == Subscription(c, s))
    && (forall id <- subs :: Holds(m, subs[id].client, subs[id].session) && m[subs[id].client][subs[id].session] == id)
  }

  ghost function Pairs(a: BySession): set<Key> {
    set s <- a, c <- a[s] :: Key(c, s)
  }

  function Sessions(m: ByClient, c: ClientId): map<SessionId, SubId> {
    if c in m then m[c] else map[]
  }

  function Clients(a: BySession, s: SessionId): set<ClientId> {
    if s in a then a[s] else {}
  }

  lemma PairsAreListed(a: BySession, c: ClientId, s: SessionId)
    ensures Key(c, s) in Pairs(a) <==> Lists(a, c, s)
  {
  }

  lemma TrackKeepsIndexes(a: BySession, m: ByClient, c: ClientId, s: SessionId, id: SubId, a': BySession, m': ByClient)
    requires IndexesAgree(a, m)
    requires a' == a[s := Clients(a, s) + {c}] && m' == m[c := Sessions(m, c)[s := id]]
    ensures IndexesAgree(a', m') && Pairs(a') == Pairs(a) + {Key(c, s)}
  {
    forall d, t ensures Lists(a', d, t) <==> Lists(a, d, t) || (d, t) == (c, s) {}
    forall d, t ensures Holds(m', d, t) <==> Holds(m, d, t) || (d, t) == (c, s) {}
    forall k: Key ensures k in Pairs(a') <==> k in Pairs(a) + {Key(c, s)} {
      PairsAreListed(a, k.client, k.session);
      PairsAreListed(a', k.client, k.session);
    }
  }

  lemma TrackKeepsSubscriptions(m: ByClient, subs: map<SubId, Subscription>, c: ClientId, s: SessionId, id: SubId,
                                m': ByClient, subs': map<SubId, Subscription>)
    requires SubscriptionsMatch(m, subs) && id !in subs
    requires m' == m[c := Sessions(m, c)[s := id]]
    requires subs' == (if Holds(m, c, s) then subs - {m[c][s]} else subs)[id := Subscription(c, s)]
    ensures SubscriptionsMatch(m', subs')
  {
    forall d, t | Holds(m', d, t) ensures m'[d][t] in subs' && subs'[m'[d][t]] == Subscription(d, t) {
      if (d, t) != (c, s) { assert Holds(m, d, t) && m'[d][t] == m[d][t]; }
    }
    forall i | i in subs' ensures Holds(m', subs'[i].client, subs'[i].session) && m'[subs'[i].client][subs'[i].session] == i {
      if i != id { assert i in subs && subs'[i] == subs[i] && Holds(m, subs[i].client, subs[i].session); }
    }
  }

  lemma DropKeepsIndexes(a: BySession, m: ByClient, c: ClientId, s: SessionId, a': BySession, m': ByClient)
    requires IndexesAgree(a, m) && Holds(m, c, s) && Lists(a, c, s)
    requires a' == if a[s] - {c} == {} then a - {s} else a[s := a[s] - {c}]
    requires m' == m[c := m[c] - {s}]
    ensures IndexesAgree(a', m') && Pairs(a') == Pairs(a) - {Key(c, s)}
  {
    forall d, t ensures Lists(a', d, t) <==> Lists(a, d, t) && (d, t) != (c, s) {
      if d != c && t == s && Lists(a, d, t) { assert d in a[s] - {c}; }
    }
    forall d, t ensures Holds(m', d, t) <==> Holds(m, d, t) && (d, t) != (c, s) {}
    forall k: Key ensures k in Pairs(a') <==> k in Pairs(a) - {Key(c, s)} {
      PairsAreListed(a, k.client, k.session);
      PairsAreListed(a', k.client, k.session);
    }
  }

  lemma DropKeepsSubscriptions(m: ByClient, subs: map<SubId, Subscription>, c: ClientId, s: SessionId,
                               m': ByClient, subs': map<SubId, Subscription>)
    requires SubscriptionsMatch(m, subs) && Holds(m, c, s)
    requires m' == m[c := m[c] - {s}] && subs' == subs - {m[c][s]}
    ensures SubscriptionsMatch(m', subs')
  {
    forall d, t | Holds(m', d, t) ensures m'[d][t] in subs' && subs'[m'[d][t]] == Subscription(d, t) {
      assert Holds(m, d, t);
    }
    forall i | i in subs' ensures Holds(m', subs'[i].client, subs'[i].session) && m'[subs'[i].client][subs'[i].session] == i {
      assert Holds(m, subs[i].client, subs[i].session);
    }
  }

  class SessionBroker {
    var connections: set<ClientId>
    /** sessionId to its attached clients. */
    var attached: BySession
    /** clientId to its attachments, each holding one host subscription. */
    var attachmentsByClient: ByClient
    var leases: map<SessionId, Lease>
    /** The host's live `onSessionEvent` registrations made by this broker. */
    var subscriptions: map<SubId, Subscription>
    var nextSub: SubId
    /** Notifications pushed so far, per stream. */
    var sent: map<Key, seq<Notice>>

    constructor ()
      ensures Valid() && AsView() == EMPTY && forall k :: SentTo(k) == []
    {
      connections, attached, attachmentsByClient, leases := {}, map[], map[], map[];
      subscriptions, nextSub, sent := map[], 0, map[];
    }

    ghost predicate Indexed()
      reads this
    {
      && IndexesAgree(attached, attachmentsByClient)
      && SubscriptionsMatch(attachmentsByClient, subscriptions)
      && 0 <= nextSub && (forall id <- subscriptions :: 0 <= id < nextSub)
    }

    ghost predicate Valid()
      reads this
    {
      Indexed() && Sound(AsView())
    }

    ghost function AsView(): View
      reads this
    {
      View(connections, Pairs(attached), leases)
    }

    function SentTo(k: Key): seq<Notice>
      reads this`sent
    {
      if k in sent then sent[k] else []
    }

    /** Clients a session's notifications go to. */
    function AttachedTo(s: SessionId): set<ClientId>
      reads this
    {
      set c <- Clients(attached, s) | c in connections
    }

    method Connect(c: ClientId)
      requires Valid()
      modifies this
      ensures Valid() && AsView() == Apply(old(AsView()), Step.Connect(c))
      ensures forall k :: SentTo(k) == old(SentTo(k))
    {
      connections := connections + {c};
    }

    /** Replace or add the attachment; the previous subscription of the pair is cancelled. */
    method TrackAttachment(c: ClientId, s: SessionId, id: SubId)
      requires id in subscriptions && subscriptions[id] == Subscription(c, s)
      requires IndexesAgree(attached, attachmentsByClient)
      requires SubscriptionsMatch(attachmentsByClient, subscriptions - {id})
      requires 0 <= nextSub && forall i <- subscriptions :: 0 <= i < nextSub
      modifies this`attached, this`attachmentsByClient, this`subscriptions
      ensures Indexed()
      ensures Pairs(attached) == old(Pairs(attached)) + {Key(c, s)}
    {
      var bySession := Sessions(attachmentsByClient, c);
      ghost var m, subs, a := attachmentsByClient, subscriptions - {id}, attached;
      if s in bySession {
        assert Holds(m, c, s);
        subscriptions := subscriptions - {bySession[s]};
      }
      attachmentsByClient := attachmentsByClient[c := bySession[s := id]];
      attached := attached[s := Clients(attached, s) + {c}];
      TrackKeepsIndexes(a, m, c, s, id, attached, attachmentsByClient);
      assert subscriptions == (if Holds(m, c, s) then subs - {m[c][s]} else subs)[id := Subscription(c, s)];
      TrackKeepsSubscriptions(m, subs, c, s, id, attachmentsByClient, subscriptions);
    }

    /**
     Drop the pair from both indexes and cancel its subscription; absent pairs
     are left alone. The client keeps its entry, empty once its last pair went.
     */
    method DropAttachment(c: ClientId, s: SessionId)
      requires Indexed()
      modifies this`attached, this`attachmentsByClient, this`subscriptions
      ensures Indexed()
      ensures Pairs(attached) == old(Pairs(attached)) - {Key(c, s)}
      ensures attachmentsByClient.Keys == old(attachmentsByClient).Keys
      ensures Sessions(attachmentsByClient, c) == old(Sessions(attachmentsByClient, c)) - {s}
    {
      PairsAreListed(attached, c, s);
      assert Lists(attached, c, s) <==> Holds(attachmentsByClient, c, s);
      if c !in attachmentsByClient || s !in attachmentsByClient[c] {
        return;
      }
      ghost var m, subs, a := attachmentsByClient, subscriptions, attached;
      subscriptions := subscriptions - {attachmentsByClient[c][s]};
      attachmentsByClient := attachmentsByClient[c := attachmentsByClient[c] - {s}];
      var clients := attached[s] - {c};
      attached := if clients == {} then attached - {s} else attached[s := clients];
      DropKeepsIndexes(a, m, c, s, attached, attachmentsByClient);
      DropKeepsSubscriptions(m, subs, c, s, attachmentsByClient, subscriptions);
    }

    method Notify(k: Key, n: Notice)
      modifies this`sent
      ensures forall x :: SentTo(x) == old(SentTo(x)) + (if x == k then [n] else [])
    {
      sent := sent[k := SentTo(k) + [n]];
    }

    /** Push one notification to every client attached to `s`. */
    method ToAttached(s: SessionId, n: Notice)
      modifies this`sent
      ensures forall x :: SentTo(x) == old(SentTo(x)) + (if x.session == s && x.client in AttachedTo(s) then [n] else [])
    {
      var todo := AttachedTo(s);
      ghost var all := todo;
      while todo != {}
        invariant todo <= all == AttachedTo(s)
        invariant forall x :: SentTo(x) == old(SentTo(x)) + (if x.session == s && x.client in all - todo then [n] else [])
        decreases |todo|
      {
        var c :| c in todo;
        Notify(Key(c, s), n);
        todo := todo - {c};
      }
    }

    lemma AttachedToIsAudience(s: SessionId)
      requires forall k <- Pairs(attached) :: k.client in connections
      ensures forall c :: c in AttachedTo(s) <==> Key(c, s) in Pairs(attached)
    {
      forall c ensures c in AttachedTo(s) <==> Key(c, s) in Pairs(attached) {
        PairsAreListed(attached, c, s);
      }
    }

    method BroadcastControl(s: SessionId, holder: Option<ClientId>, reason: Reason)
      requires forall k <- Pairs(attached) :: k.client in connections
      modifies this`sent
      ensures forall x :: SentTo(x) == old(SentTo(x))
                            + (if x in Pairs(attached) && x.session == s then [Control(holder, reason)] else [])
    {
      AttachedToIsAudience(s);
      ToAttached(s, Control(holder, reason));
    }

    method ControlRelease(c: ClientId, s: SessionId)
      requires Valid()
      modifies this
      ensures Valid() && AsView() == Apply(old(AsView()), Release(c, s))
      ensures forall x :: SentTo(x) == old(SentTo(x)) + Told(old(AsView()), Release(c, s), x)
    {
      hide IndexesAgree;
      hide SubscriptionsMatch;
      hide Pairs;
      ghost var v := AsView();
      if s !in leases || leases[s].holderId != c { return; }
      leases := leases - {s};
      BroadcastControl(s, None, Released);
      ApplyKeepsSound(v, Release(c, s));
    }

    method Detach(c: ClientId, s: SessionId)
      requires Valid()
      modifies this
      ensures Valid() && AsView() == Apply(old(AsView()), Step.Detach(c, s))
      ensures forall x :: SentTo(x) == old(SentTo(x)) + Told(old(AsView()), Step.Detach(c, s), x)
    {
      hide IndexesAgree;
      hide SubscriptionsMatch;
      hide Pairs;
      ghost var v := AsView();
      if s in leases && leases[s].holderId == c {
        leases := leases - {s};
        BroadcastControl(s, None, Released);
      }
      DropAttachment(c, s);
      ApplyKeepsSound(v, Step.Detach(c, s));
    }

    /** Take the lease if it is free, ours, or force is set; otherwise report it locked. */
    method AcquireLease(c: ClientId, s: SessionId, force: bool, now: string) returns (locked: bool)
      requires forall k <- Pairs(attached) :: k.client in connections
      modifies this`leases, this`sent
      ensures locked <==> Holder(old(AsView()), s) != Some(c) && s in old(leases) && !force
      ensures var same := locked || Holder(old(AsView()), s) == Some(c);
              && leases == (if same then old(leases) else old(leases)[s := Lease(c, now)])
              && forall x :: SentTo(x) == old(SentTo(x))
                   + (if !same && x in Pairs(attached) && x.session == s
                      then [Control(Some(c), if s in old(leases) then Preempted else Acquired)] else [])
    {
      if s !in leases {
        leases := leases[s := Lease(c, now)];
        BroadcastControl(s, Some(c), Acquired);
        return false;
      }
      if leases[s].holderId == c { return false; }
      if !force { return true; }
      leases := leases[s := Lease(c, now)];
      BroadcastControl(s, Some(c), Preempted);
      return false;
    }

    /** Forward every log entry after `since` to one client. */
    method ReplayTo(k: Key, log: seq<Event>, since: int)
      modifies this`sent
      ensures forall x :: SentTo(x) == old(SentTo(x)) + (if x == k then Replay(log, since) else [])
    {
      for i := 0 to |log|
        invariant forall x :: SentTo(x) == old(SentTo(x)) + (if x == k then Replay(log[..i], since) else [])
      {
        ReplayMore(log, i, since);
        if log[i].seq_ > since {
          Notify(k, Feed(log[i]));
        }
      }
      assert log[..|log|] == log;
    }

    static lemma ReplayMore(log: seq<Event>, i: nat, since: int)
      requires i < |log|
      ensures Replay(log[..i + 1], since) == Replay(log[..i], since) + (if log[i].seq_ > since then [Feed(log[i])] else [])
    {
      assert log[..i + 1] == log[..i] + [log[i]];
      ReplayAppend(log[..i], [log[i]], since);
    }

    /** Subscribe, replay, track, then take the lease; a refused lease rolls the attachment back. */
    method Attach(c: ClientId, s: SessionId, log: Option<seq<Event>>, since: Option<int>,
                  mode: Mode, force: bool, now: string) returns (r: AttachResult)
      requires Valid()
      modifies this
      ensures Valid()
      ensures r == AttachOutcome(old(AsView()), Key(c, s), log, mode, force)
      ensures AsView() == AfterAttach(old(AsView()), Key(c, s), r, mode, now)
      ensures forall x :: SentTo(x) == old(SentTo(x)) + AttachTells(old(AsView()), Key(c, s), log, since, mode, r, x)
    {
      ghost var v := AsView();
      AttachKeepsSound(v, Key(c, s), log, mode, force, now);
      if c !in connections { return UnknownClient; }
      if log.None? { return UnknownSession; }
      r := AttachLive(c, s, log.value, since, mode, force, now);
    }

    /** An attach of a known client to a live session. */
    method AttachLive(c: ClientId, s: SessionId, log: seq<Event>, since: Option<int>,
                      mode: Mode, force: bool, now: string) returns (r: AttachResult)
      requires Valid() && c in connections
      modifies this
      ensures Indexed()
      ensures r == AttachOutcome(old(AsView()), Key(c, s), Some(log), mode, force)
      ensures AsView() == AfterAttach(old(AsView()), Key(c, s), r, mode, now)
      ensures forall x :: SentTo(x) == old(SentTo(x)) + AttachTells(old(AsView()), Key(c, s), Some(log), since, mode, r, x)
    {
      ghost var v := AsView();
      SubscribeAndReplay(c, s, log, since);
      r := Settle(c, s, log, mode, force, now, v);
      TellsReplayFirst(v, Key(c, s), log, since, mode, r);
    }

    /** Register on the host feed, forward what the log holds after `since`, and track the attachment. */
    method SubscribeAndReplay(c: ClientId, s: SessionId, log: seq<Event>, since: Option<int>)
      requires Indexed()
      modifies this`subscriptions, this`nextSub, this`sent, this`attached, this`attachmentsByClient
      ensures Indexed()
      ensures Pairs(attached) == old(Pairs(attached)) + {Key(c, s)}
      ensures forall x :: SentTo(x) == old(SentTo(x)) + (if x == Key(c, s) && since.Some? then Replay(log, since.value) else [])
    {
      var id := nextSub;
      subscriptions, nextSub := subscriptions[id := Subscription(c, s)], nextSub + 1;
      assert subscriptions - {id} == old(subscriptions);
      if since.Some? {
        ReplayTo(Key(c, s), log, since.value);
      }
      TrackAttachment(c, s, id);
    }

    /** The tail of an attach, once tracked: take the lease or roll back, and report. */
    method Settle(c: ClientId, s: SessionId, log: seq<Event>, mode: Mode, force: bool, now: string, ghost v: View)
      returns (r: AttachResult)
      requires Indexed() && Sound(v) && c in v.connected
      requires connections == v.connected && leases == v.leases && Pairs(attached) == v.attached + {Key(c, s)}
      modifies this
      ensures Indexed()
      ensures r == AttachOutcome(v, Key(c, s), Some(log), mode, force)
      ensures AsView() == AfterAttach(v, Key(c, s), r, mode, now)
      ensures forall x :: SentTo(x) == old(SentTo(x)) + AttachTells(v, Key(c, s), Some(log), None, mode, r, x)
    {
      hide IndexesAgree;
      hide SubscriptionsMatch;
      hide Pairs;
      if mode == Write {
        var locked := AcquireLease(c, s, force, now);
        if locked {
          r := Locked(leases[s].holderId, leases[s].attachedAt);
          DropAttachment(c, s);
          assert Pairs(attached) == v.attached - {Key(c, s)};
          return;
        }
      }
      r := Attached(if s in leases then Some(leases[s].holderId) else None, |log| - 1);
    }

    /** Drop every attachment of `c`, forget the connection, then release each lease it held. */
    method Disconnect(c: ClientId)
      requires Valid()
      modifies this
      ensures Valid() && AsView() == Apply(old(AsView()), Step.Disconnect(c))
      ensures forall x :: SentTo(x) == old(SentTo(x)) + Told(old(AsView()), Step.Disconnect(c), x)
      ensures forall id <- subscriptions :: subscriptions[id].client != c
      ensures attachmentsByClient.Keys == old(attachmentsByClient).Keys && Sessions(attachmentsByClient, c) == map[]
    {
      hide IndexesAgree;
      hide SubscriptionsMatch;
      hide Pairs;
      ghost var v := AsView();
      ApplyKeepsSound(v, Step.Disconnect(c));
      DropAll(c);
      assert Pairs(attached) == set k <- v.attached | k.client != c;
      connections := connections - {c};
      hide Sound;
      ReleaseAll(c);
      RemainingLeases(v, leases, c);
    }

    method DropAll(c: ClientId)
      requires Indexed()
      modifies this`attached, this`attachmentsByClient, this`subscriptions
      ensures Indexed()
      ensures forall k: Key :: k in Pairs(attached) <==> k in old(Pairs(attached)) && k.client != c
      ensures forall id <- subscriptions :: subscriptions[id].client != c
      ensures attachmentsByClient.Keys == old(attachmentsByClient).Keys && Sessions(attachmentsByClient, c) == map[]
    {
      var mine := Sessions(attachmentsByClient, c).Keys;
      while mine != {}
        invariant Indexed()
        invariant Sessions(attachmentsByClient, c).Keys == mine && attachmentsByClient.Keys == old(attachmentsByClient).Keys
        invariant forall k: Key :: k.client != c ==> (k in Pairs(attached) <==> k in old(Pairs(attached)))
        decreases |mine|
      {
        var s :| s in mine;
        DropAttachment(c, s);
        mine := mine - {s};
      }
      forall k: Key ensures k in Pairs(attached) <==> k in old(Pairs(attached)) && k.client != c {
        PairsAreListed(attached, k.client, k.session);
        assert Lists(attached, k.client, k.session) <==> Holds(attachmentsByClient, k.client, k.session);
      }
      forall id | id in subscriptions ensures subscriptions[id].client != c {
        assert Holds(attachmentsByClient, subscriptions[id].client, subscriptions[id].session);
      }
    }

    /** Release each lease `c` holds, telling whoever is still attached. */
    method ReleaseAll(c: ClientId)
      requires forall k <- Pairs(attached) :: k.client in connections
      modifies this`leases, this`sent
      ensures forall s :: s in leases <==> s in old(leases) && !Owned(old(leases), c, s)
      ensures forall s <- leases :: leases[s] == old(leases)[s]
      ensures forall x :: SentTo(x) == old(SentTo(x))
                            + (if x in Pairs(attached) && Owned(old(leases), c, x.session) then [Control(None, Disconnected)] else [])
    {
      var todo := leases.Keys;
      ghost var was, pairs := leases, Pairs(attached);
      while todo != {}
        invariant todo <= was.Keys
        invariant forall s :: s in leases <==> s in was && (s in todo || !Owned(was, c, s))
        invariant forall s <- leases :: leases[s] == was[s]
        invariant forall x :: SentTo(x) == old(SentTo(x))
                                + (if x in pairs && x.session !in todo && Owned(was, c, x.session)
                                   then [Control(None, Disconnected)] else [])
        decreases |todo|
      {
        var s :| s in todo;
        if leases[s].holderId == c {
          leases := leases - {s};
          BroadcastControl(s, None, Disconnected);
        }
        todo := todo - {s};
      }
    }

    /** The host feed: each live subscription of the session, oldest first, forwards the event to its client. */
    method HostEvent(s: SessionId, e: Event)
      requires Valid()
      modifies this`sent
      ensures Valid() && AsView() == old(AsView())
      ensures forall x :: SentTo(x) == old(SentTo(x)) + Told(old(AsView()), Step.HostEvent(s, e), x)
    {
      hide IndexesAgree;
      hide SubscriptionsMatch;
      hide Pairs;
      hide Served;
      NoneServed();
      for id := 0 to nextSub
        invariant forall x :: SentTo(x) == old(SentTo(x)) + (if x.session == s && Served(attachmentsByClient, id, x) then [Feed(e)] else [])
      {
        ServeOne(id);
        if id in subscriptions && subscriptions[id].session == s {
          Notify(Key(subscriptions[id].client, s), Feed(e));
        }
      }
      AllServed();
    }

    lemma NoneServed()
      requires Indexed()
      ensures forall x :: !Served(attachmentsByClient, 0, x)
    {
    }

    lemma AllServed()
      requires Indexed()
      ensures forall x :: Served(attachmentsByClient, nextSub, x) <==> x in Pairs(attached)
    {
      forall x ensures Served(attachmentsByClient, nextSub, x) <==> x in Pairs(attached) {
        PairsAreListed(attached, x.client, x.session);
        assert Lists(attached, x.client, x.session) <==> Holds(attachmentsByClient, x.client, x.session);
      }
    }

    /** The subscription behind attachment `x` is older than `id`. */
    static ghost predicate Served(m: ByClient, id: SubId, x: Key)
    {
      Holds(m, x.client, x.session) && m[x.client][x.session] < id
    }

    /** Serving one subscription feeds exactly the attachment it belongs to. */
    lemma ServeOne(id: SubId)
      requires Indexed()
      ensures forall x :: Served(attachmentsByClient, id + 1, x) <==>
                Served(attachmentsByClient, id, x) || (id in subscriptions && x == Key(subscriptions[id].client, subscriptions[id].session))
      ensures id in subscriptions ==> !Served(attachmentsByClient, id, Key(subscriptions[id].client, subscriptions[id].session))
    {
      forall x ensures Served(attachmentsByClient, id + 1, x) <==>
                Served(attachmentsByClient, id, x) || (id in subscriptions && x == Key(subscriptions[id].client, subscriptions[id].session))
      {
        ServesOnly(attachmentsByClient, subscriptions, id, x);
      }
      if id in subscriptions { ServesOnly(attachmentsByClient, subscriptions, id, Key(subscriptions[id].client, subscriptions[id].session)); }
    }

    static lemma ServesOnly(m: ByClient, subs: map<SubId, Subscription>, id: SubId, x: Key)
      requires SubscriptionsMatch(m, subs)
      ensures Served(m, id + 1, x) <==> Served(m, id, x) || (id in subs && x == Key(subs[id].client, subs[id].session))
      ensures id in subs && x == Key(subs[id].client, subs[id].session) ==> !Served(m, id, x)
    {
      if id in subs { assert Holds(m, subs[id].client, subs[id].session); }
      if Holds(m, x.client, x.session) { assert subs[m[x.client][x.session]] == Subscription(x.client, x.session); }
    }

    /** The attached-client count of the monitor is the number of attachments. */
    method Stats() returns (attachedClients: nat)
      requires Valid()
      ensures attachedClients == |AsView().attached|
    {
      attachedClients := 0;
      var todo := attached.Keys;
      assert Counted(attached, todo) == {} by { NothingCounted(attached); }
      hide Counted;
      while todo != {}
        invariant todo <= attached.Keys && attachedClients == |Counted(attached, todo)|
        decreases |todo|
      {
        var s :| s in todo;
        CountedMore(attached, todo, s);
        todo := todo - {s};
        attachedClients := attachedClients + |attached[s]|;
      }
      AllCounted(attached);
    }
  }

  /** A client that attached once and went away leaves an empty entry behind for good. */
  method EmptyEntryRemains(c: ClientId, s: SessionId, log: seq<Event>) returns (b: SessionBroker)
    ensures b.Valid() && c !in b.connections && b.attached == map[]
    ensures c in b.attachmentsByClient && b.attachmentsByClient[c] == map[]
  {
    b := new SessionBroker();
    b.Connect(c);
    var _ := b.Attach(c, s, Some(log), None, Read, false, "");
    PairsAreListed(b.attached, c, s);
    assert Holds(b.attachmentsByClient, c, s);
    b.Disconnect(c);
    NoPairs(b.attached, b.attachmentsByClient);
  }

  /** Without attachments the index by session is empty: it holds no empty sets. */
  lemma NoPairs(a: BySession, m: ByClient)
    requires IndexesAgree(a, m) && Pairs(a) == {}
    ensures a == map[]
  {
    forall s | s in a ensures false {
      var c :| c in a[s];
      PairsAreListed(a, c, s);
    }
  }

  /** The attachments of the sessions already visited. */
  ghost function Counted(attached: BySession, todo: set<SessionId>): set<Key> {
    set k <- Pairs(attached) | k.session !in todo
  }

  lemma NothingCounted(attached: BySession)
    ensures Counted(attached, attached.Keys) == {}
  {
  }

  lemma AllCounted(attached: BySession)
    ensures Counted(attached, {}) == Pairs(attached)
  {
  }

  lemma CountedMore(attached: BySession, todo: set<SessionId>, s: SessionId)
    requires s in todo && s in attached
    ensures |Counted(attached, todo - {s})| == |Counted(attached, todo)| + |attached[s]|
  {
    StreamsKeepSize(attached[s], s);
    assert Counted(attached, todo) !! Streams(attached[s], s);
    assert Counted(attached, todo - {s}) == Counted(attached, todo) + Streams(attached[s], s);
  }

  ghost predicate Owned(m: map<SessionId, Lease>, c: ClientId, s: SessionId) {
    s in m && m[s].holderId == c
  }

  lemma RemainingLeases(v: View, now: map<SessionId, Lease>, c: ClientId)
    requires forall s :: s in now <==> s in v.leases && !Owned(v.leases, c, s)
    requires forall s <- now :: now[s] == v.leases[s]
    ensures now == v.leases - Held(v, c)
  {
  }

  lemma AttachKeepsSound(v: View, k: Key, log: Option<seq<Event>>, mode: Mode, force: bool, now: string)
    requires Sound(v)
    ensures Sound(AfterAttach(v, k, AttachOutcome(v, k, log, mode, force), mode, now))
  {
  }

  lemma TellsReplayFirst(v: View, k: Key, log: seq<Event>, since: Option<int>, mode: Mode, r: AttachResult)
    requires r.Attached? || r.Locked?
    ensures forall x :: AttachTells(v, k, Some(log), since, mode, r, x)
              == (if x == k && since.Some? then Replay(log, since.value) else []) + AttachTells(v, k, Some(log), None, mode, r, x)
  {
  }

  ghost function Streams(cs: set<ClientId>, s: SessionId): set<Key> {
    set c <- cs :: Key(c, s)
  }

  lemma {:induction false} StreamsKeepSize(cs: set<ClientId>, s: SessionId)
    ensures |Streams(cs, s)| == |cs|
  {
    if cs == {} {
      assert Streams(cs, s) == {};
    } else {
      var c :| c in cs;
      StreamsKeepSize(cs - {c}, s);
      assert Streams(cs, s) == Streams(cs - {c}, s) + {Key(c, s)};
    }
  }
}
