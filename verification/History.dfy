/**
 Paged session history: the broker's pages (broker.ts) and the client's
 backwards paging loop over a log that keeps growing (events.ts).
 */
module History {
  import opened Wrappers
  import opened Broker
  import opened Delivery

  const DEFAULT_MAX := 200
  const MAX := 1000

  datatype Page = Page(entries: seq<Event>, hasMore: bool)
  datatype PageResult = Served(page: Page) | NoPersistence | NoSession

  /** Where a session's events are read from. */
  datatype Source = LiveLog(events: seq<Event>) | ColdLog(info: Option<seq<Event>>) | ColdWithoutStore

  function Limit(maxMessages: Option<int>): nat {
    var m := maxMessages.GetOr(DEFAULT_MAX);
    var atLeastOne := if m < 1 then 1 else m;
    if atLeastOne > MAX then MAX else atLeastOne
  }

  function Before(events: seq<Event>, beforeSeq: int): seq<Event> {
    if events == [] then []
    else (if events[0].seq_ < beforeSeq then [events[0]] else []) + Before(events[1..], beforeSeq)
  }

  function PageOf(events: seq<Event>, beforeSeq: Option<int>, maxMessages: Option<int>): Page {
    var eligible := if beforeSeq.None? then events else Before(events, beforeSeq.value);
    var limit := Limit(maxMessages);
    var start := if |eligible| <= limit then 0 else |eligible| - limit;
    Page(eligible[start..], start > 0)
  }

  function PageFrom(source: Source, beforeSeq: Option<int>, maxMessages: Option<int>): PageResult {
    match source
    case LiveLog(events) => Served(PageOf(events, beforeSeq, maxMessages))
    case ColdWithoutStore => NoPersistence
    case ColdLog(None) => NoSession
    case ColdLog(Some(events)) => Served(PageOf(events, beforeSeq, maxMessages))
  }

  lemma {:induction false} BeforeOnContiguous(log: seq<Event>, i: nat, bound: int)
    requires Contiguous(log) && i <= |log|
    ensures Before(log[i..], bound) == if bound <= i then [] else log[i..if bound <= |log| then bound else |log|]
    decreases |log| - i
  {
    if i < |log| {
      assert log[i..][1..] == log[i + 1..];
      BeforeOnContiguous(log, i + 1, bound);
    }
  }

  lemma LimitIs(maxMessages: Option<int>)
    ensures Limit(maxMessages) ==
              if maxMessages.None? then 200 else if maxMessages.value < 1 then 1 else if maxMessages.value > 1000 then 1000 else maxMessages.value
  {
  }

  lemma PageOfWindow(log: seq<Event>, beforeSeq: Option<int>, maxMessages: Option<int>)
    requires Contiguous(log) && (beforeSeq.Some? ==> 0 <= beforeSeq.value <= |log|)
    ensures var hi := beforeSeq.GetOr(|log|);
            var lo := if hi <= Limit(maxMessages) then 0 else hi - Limit(maxMessages);
            PageOf(log, beforeSeq, maxMessages) == Page(log[lo..hi], lo > 0)
  {
    if beforeSeq.Some? {
      BeforeOnContiguous(log, 0, beforeSeq.value);
      assert log[0..] == log;
    }
  }

  /** On a contiguous log a page is the last `limit` entries below the bound, and says whether any remain below it. */
  lemma PageIsWindow(log: seq<Event>, beforeSeq: Option<int>, maxMessages: Option<int>)
    requires Contiguous(log) && (beforeSeq.Some? ==> 0 <= beforeSeq.value <= |log|)
    ensures var hi := beforeSeq.GetOr(|log|);
            var n := if maxMessages.None? then 200 else if maxMessages.value < 1 then 1 else if maxMessages.value > 1000 then 1000 else maxMessages.value;
            var lo := if hi <= n then 0 else hi - n;
            PageOf(log, beforeSeq, maxMessages) == Page(log[lo..hi], lo > 0)
  {
    PageOfWindow(log, beforeSeq, maxMessages);
    LimitIs(maxMessages);
  }

  function Flatten(pages: seq<seq<Event>>): seq<Event> {
    if pages == [] then [] else pages[0] + Flatten(pages[1..])
  }

  function AtLeast(es: seq<Event>, fromSeq: int): seq<Event> {
    if es == [] then [] else (if es[0].seq_ >= fromSeq then [es[0]] else []) + AtLeast(es[1..], fromSeq)
  }

  lemma {:induction false} AtLeastOnContiguous(log: seq<Event>, i: nat, fromSeq: int)
    requires Contiguous(log) && i <= |log|
    ensures AtLeast(log[i..], fromSeq) == if fromSeq <= i then log[i..] else if fromSeq >= |log| then [] else log[fromSeq..]
    decreases |log| - i
  {
    if i < |log| {
      assert log[i..][1..] == log[i + 1..];
      AtLeastOnContiguous(log, i + 1, fromSeq);
    }
  }

  /** Whether the daemon holds the session live, in its persistence store, or not at all. */
  datatype Keeping = Live | Stored | Unknown | WithoutStore

  /** The remote session, whose log may grow before any page is served. */
  class RemoteSession {
    const keeping: Keeping
    var log: seq<Event>

    function AsSource(): Source
      reads this
    {
      match keeping
      case Live => LiveLog(log)
      case Stored => ColdLog(Some(log))
      case Unknown => ColdLog(None)
      case WithoutStore => ColdWithoutStore
    }

    ghost predicate Valid()
      reads this
    {
      Contiguous(log)
    }

    constructor (keeping: Keeping, initial: seq<Event>)
      requires Contiguous(initial)
      ensures Valid() && this.keeping == keeping && log == initial
    {
      this.keeping, log := keeping, initial;
    }

    /** The host appends `arrivals`, then serves one page. */
    method Fetch(arrivals: seq<(string, Body)>, beforeSeq: Option<int>, maxMessages: Option<int>) returns (r: PageResult)
      requires Valid()
      modifies this
      ensures Valid() && old(log) <= log && |log| == |old(log)| + |arrivals|
      ensures r == PageFrom(AsSource(), beforeSeq, maxMessages)
    {
      for i := 0 to |arrivals|
        invariant Valid() && old(log) <= log && |log| == |old(log)| + i
      {
        log := log + [Event(|log|, arrivals[i].0, arrivals[i].1)];
      }
      r := PageFrom(AsSource(), beforeSeq, maxMessages);
    }
  }

  lemma Prepend(page: seq<Event>, pages: seq<seq<Event>>)
    ensures Flatten([page] + pages) == page + Flatten(pages)
  {
    assert ([page] + pages)[1..] == pages;
  }

  lemma NoPages()
    ensures Flatten([]) == []
  {
  }

  lemma JoinStretches(was: seq<Event>, log: seq<Event>, a: nat, b: nat, c: nat)
    requires was <= log && a <= b <= c <= |was|
    ensures log[a..b] + was[b..c] == log[a..c]
  {
  }

  lemma FilterStretch(log: seq<Event>, low: nat, high: nat, fromSeq: int)
    requires Contiguous(log) && low <= high <= |log| && (low == 0 || low <= fromSeq)
    ensures AtLeast(log[low..high], fromSeq) ==
              if fromSeq >= high then [] else if fromSeq < 0 then log[..high] else log[fromSeq..high]
  {
    var snapshot := log[..high];
    assert log[low..high] == snapshot[low..];
    AtLeastOnContiguous(snapshot, low, fromSeq);
    if 0 <= fromSeq < high { assert snapshot[fromSeq..] == log[fromSeq..high]; }
  }

  /** Why a session cannot be read at all. */
  function Refusal(keeping: Keeping): Option<PageResult> {
    match keeping
    case Unknown => Some(NoSession)
    case WithoutStore => Some(NoPersistence)
    case _ => None
  }

  /** Page backwards until `fromSeq` is covered: the pages together are one stretch of the first page's log. */
  method CollectPages(remote: RemoteSession, arrivals: nat -> seq<(string, Body)>, fromSeq: int, pageSize: int)
    returns (pages: seq<seq<Event>>, refused: Option<PageResult>, ghost low: nat)
    requires remote.Valid()
    modifies remote
    ensures remote.Valid() && old(remote.log) <= remote.log
    ensures refused == Refusal(remote.keeping)
    ensures refused.None? ==>
              var atFirst := |old(remote.log)| + |arrivals(0)|;
              && low <= atFirst <= |remote.log|
              && (low == 0 || low <= fromSeq)
              && Flatten(pages) == remote.log[low..atFirst]
  {
    hide PageOf;
    hide Before;
    hide Flatten;
    assert Flatten([]) == [] by { NoPages(); }
    ghost var atFirst := |remote.log| + |arrivals(0)|;
    var served := remote.Fetch(arrivals(0), None, Some(pageSize));
    if !served.Served? { return [], Some(served), 0; }
    var page := served.page;
    PageOfWindow(remote.log, None, Some(pageSize));
    low := if atFirst <= Limit(Some(pageSize)) then 0 else atFirst - Limit(Some(pageSize));
    pages := [page.entries];
    Prepend(page.entries, []);
    assert [page.entries] + [] == pages && page.entries + [] == page.entries;
    var i: nat := 1;
    while page.hasMore && page.entries != [] && page.entries[0].seq_ > fromSeq
      invariant remote.Valid() && old(remote.log) <= remote.log && low <= atFirst <= |remote.log|
      invariant page.hasMore <==> low > 0
      invariant low < atFirst ==> page.entries != [] && page.entries[0].seq_ == low
      invariant low == atFirst ==> low == 0
      invariant Flatten(pages) == remote.log[low..atFirst]
      decreases low
    {
      ghost var was := remote.log;
      served := remote.Fetch(arrivals(i), Some(page.entries[0].seq_), Some(pageSize));
      page := served.page;
      PageOfWindow(remote.log, Some(low), Some(pageSize));
      ghost var below := if low <= Limit(Some(pageSize)) then 0 else low - Limit(Some(pageSize));
      JoinStretches(was, remote.log, below, low, atFirst);
      Prepend(page.entries, pages);
      pages := [page.entries] + pages;
      low, i := below, i + 1;
    }
    refused := None;
  }

  datatype ReadResult = Events(events: seq<Event>) | NotContiguous | Refused(why: PageResult)

  /**
   However the log grows meanwhile (`arrivals(i)` before page i), the result is
   exactly what the log held from `fromSeq` on when the first page was served.
   It is an error exactly when the session cannot be read, or when `fromSeq` is
   negative and that log was not empty.
   */
  method ReadRemoteHistory(remote: RemoteSession, arrivals: nat -> seq<(string, Body)>, fromSeq: int, pageSize: int)
    returns (r: ReadResult)
    requires remote.Valid()
    modifies remote
    ensures remote.Valid() && old(remote.log) <= remote.log
    ensures r == Refused(NoSession) <==> remote.keeping.Unknown?
    ensures r == Refused(NoPersistence) <==> remote.keeping.WithoutStore?
    ensures var refusal := Refusal(remote.keeping);
            if refusal.Some? then r == Refused(refusal.value)
            else
              var atFirst := |old(remote.log)| + |arrivals(0)|;
              && atFirst <= |remote.log|
              && r == if fromSeq < 0 < atFirst then NotContiguous
                      else if fromSeq < 0 || fromSeq >= atFirst then Events([]) else Events(remote.log[fromSeq..atFirst])
  {
    hide Flatten;
    hide AtLeast;
    ghost var atFirst := |remote.log| + |arrivals(0)|;
    var pages, refused, low := CollectPages(remote, arrivals, fromSeq, pageSize);
    if refused.Some? { return Refused(refused.value); }
    var all := AtLeast(Flatten(pages), fromSeq);
    FilterStretch(remote.log, low, atFirst, fromSeq);
    var contiguous := CountsFrom(all, fromSeq);
    assert fromSeq < 0 < atFirst ==> all[0] == remote.log[0];
    assert 0 <= fromSeq ==> forall j | 0 <= j < |all| :: all[j] == remote.log[fromSeq + j];
    return if contiguous then Events(all) else NotContiguous;
  }

  /** The events are numbered from `fromSeq` on without gaps. */
  method CountsFrom(all: seq<Event>, fromSeq: int) returns (ok: bool)
    ensures ok <==> forall j | 0 <= j < |all| :: all[j].seq_ == fromSeq + j
  {
    for k := 0 to |all|
      invariant forall j | 0 <= j < k :: all[j].seq_ == fromSeq + j
    {
      if all[k].seq_ != fromSeq + k { return false; }
    }
    return true;
  }
}
