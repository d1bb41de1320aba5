/** The datapath handlers as they run when nothing interleaves: the filter list under its lock, the
    rundown around it, and what NDIS is handed. */
module Handlers {
  import opened Bytes
  import opened DataFilters
  import opened Capture
  import opened FilterLists
  import Ledger

  /** A send completed towards the lightweight filter: its own frame or another driver's NBL. */
  datatype Sent = Sent(id: nat, own: bool)

  function SentIds(chain: seq<Sent>, own: bool): seq<nat> {
    if chain == [] then []
    else
      var last := chain[|chain| - 1];
      SentIds(chain[..|chain| - 1], own) + if last.own == own then [last.id] else []
  }

  /** The own frames and the others of a completed chain. */
  ghost predicate Divides(chain: seq<Sent>, own: seq<nat>, pass: seq<nat>) {
    forall side :: SentIds(chain, side) == if side then own else pass
  }

  lemma SentExtends(chain: seq<Sent>, i: nat, own: bool)
    requires i < |chain|
    ensures SentIds(chain[..i + 1], own) == SentIds(chain[..i], own) + if chain[i].own == own then [chain[i].id] else []
  {
    assert chain[..i + 1][..i] == chain[..i];
  }

  function AllIds(chain: seq<Sent>): (r: seq<nat>)
    ensures |r| == |chain|
  {
    seq(|chain|, i requires 0 <= i < |chain| => chain[i].id)
  }

  lemma {:induction false} SentSide(chain: seq<Sent>, id: nat, own: bool)
    ensures id in SentIds(chain, own) <==> Sent(id, own) in chain
  {
    if chain != [] {
      var before, last := chain[..|chain| - 1], chain[|chain| - 1];
      SentSide(before, id, own);
      assert chain == before + [last];
    }
  }

  lemma {:induction false} SentOnce(chain: seq<Sent>)
    ensures multiset(SentIds(chain, true)) + multiset(SentIds(chain, false)) == multiset(AllIds(chain))
  {
    if chain != [] {
      var before, last := chain[..|chain| - 1], chain[|chain| - 1];
      SentOnce(before);
      assert AllIds(chain) == AllIds(before) + [last.id];
    }
  }

  /** Every completed NBL goes to exactly one side, the one that its origin says. */
  lemma SentPartition(chain: seq<Sent>)
    ensures multiset(SentIds(chain, true)) + multiset(SentIds(chain, false)) == multiset(AllIds(chain))
    ensures forall id, own :: id in SentIds(chain, own) <==> Sent(id, own) in chain
  {
    SentOnce(chain);
    forall id, own ensures id in SentIds(chain, own) <==> Sent(id, own) in chain {
      SentSide(chain, id, own);
    }
  }

  // ---- What the handlers do, on values ---------------------------------------------------------

  /** ADAPTER_SHARED or LWF_FILTER besides its filters: count and closed are the NblRundown; handed logs the
      NBLs given to NDIS and freed the frames given back to the pool; queues are the handles' injected frames
      and outside those that NDIS has. */
  datatype Face = Face(
    side: Ledger.Side, count: int, closed: bool,
    handed: seq<nat>, freed: seq<nat>, queues: seq<seq<nat>>, outside: multiset<nat>)

  /** What a state of the ledger shows. */
  function FaceOf(s: Ledger.State): Face {
    Face(s.side, s.count, s.closed, s.completed, s.freed, s.queues, s.outside)
  }

  /** A chain was sent or received: what no filter takes is handed on; what one takes stays protected. */
  function AfterChain(f: Face, links: seq<Link>, chain: seq<Arrival>, declared: nat): Face {
    if f.closed then f.(handed := f.handed + ArrivalIds(chain))
    else
      var rest := Joins(links, chain, None);
      f.(handed := f.handed + ArrivalIds(rest), count := f.count + declared - |rest|)
  }

  function LinksAfterChain(f: Face, links: seq<Link>, chain: seq<Arrival>): seq<Link> {
    if f.closed then links else After(links, chain)
  }

  /** NBLs left the filters: they are handed on and their protection is given back. */
  function AfterFlush(f: Face, flush: seq<Held>): Face {
    f.(handed := f.handed + Ids(flush), count := f.count - |flush|)
  }

  /** Injected frames are indicated: NDIS has them under protection, unless it must give them back at once or
      the rundown is closed. */
  function AfterIndicate(f: Face, frames: seq<nat>, low: bool): Face {
    if f.closed || low then f.(freed := f.freed + frames)
    else f.(outside := f.outside + multiset(frames), count := f.count + |frames|)
  }

  function AfterInject(f: Face, q: nat, low: bool): Face
    requires q < |f.queues|
  {
    AfterIndicate(f.(queues := f.queues[q := []]), f.queues[q], low)
  }

  /** NDIS is done with injected frames. */
  function AfterReturn(f: Face, frames: seq<nat>): Face {
    f.(outside := f.outside - multiset(frames), freed := f.freed + frames, count := f.count - |frames|)
  }

  function AfterClose(f: Face, q: nat): Face
    requires q < |f.queues|
  {
    f.(queues := f.queues[q := []], freed := f.freed + f.queues[q])
  }

  // ---- They are runs of the ledger -------------------------------------------------------------

  /** A send or receive of a chain that NDIS owns. */
  lemma ChainIsRun(s: Ledger.State, chain: seq<Arrival>, declared: nat) returns (t: Ledger.State)
    requires Ledger.OwnedByNdis(s, ArrivalIds(chain)) && (s.side == Ledger.Miniport ==> declared == |chain|)
    ensures Ledger.Leads(s, t) && t.filters == LinksAfterChain(FaceOf(s), s.filters, chain)
    ensures FaceOf(t) == AfterChain(FaceOf(s), s.filters, chain, declared)
  {
    t := Ledger.HandlerIsRun(s, chain, declared);
  }

  /** The list with a handle's filter replaced by a new one, or cleared. */
  function LinksAfterSet(links: seq<Link>, owner: nat, params: Option<Params>): seq<Link> {
    Cleared(links, owner) + if params.Some? then [Link(owner, Filter(params.value, [], []))] else []
  }

  lemma FilterIsRun(s: Ledger.State, owner: nat, params: Option<Params>) returns (t: Ledger.State)
    ensures Ledger.Leads(s, t) && t.filters == LinksAfterSet(s.filters, owner, params)
    ensures FaceOf(t) == AfterFlush(FaceOf(s), Flushed(s.filters, owner))
  {
    t := Ledger.FilterIsRun(s, Ledger.SetFilter(owner, params));
  }

  lemma WatchdogIsRun(s: Ledger.State, now: Clock) returns (t: Ledger.State)
    ensures var sweep := SweepTo(s.filters, |s.filters|, now);
      Ledger.Leads(s, t) && t.filters == sweep.kept && FaceOf(t) == AfterFlush(FaceOf(s), sweep.flush)
  {
    t := Ledger.FilterIsRun(s, Ledger.Watchdog(now));
  }

  /** A handle's own filter, if it has one. */
  function Own(links: seq<Link>, owner: nat): Option<Filter> {
    var at := Position(links, owner, 0);
    if at.None? then None else Some(links[at.value].filter)
  }

  /** The list after a handle's filter changed. */
  function Replaced(links: seq<Link>, owner: nat, f: Filter): seq<Link> {
    var at := Position(links, owner, 0);
    if at.None? then links else links[at.value := links[at.value].(filter := f)]
  }

  function LinksAfterDequeue(links: seq<Link>, owner: nat, index: u32): seq<Link> {
    var f := Own(links, owner);
    if f.None? then links else Replaced(links, owner, Dequeued(f.value, index))
  }

  lemma DequeueIsRun(s: Ledger.State, owner: nat, index: u32) returns (t: Ledger.State)
    ensures Ledger.Leads(s, t) && t.filters == LinksAfterDequeue(s.filters, owner, index) && FaceOf(t) == FaceOf(s)
  {
    t := Ledger.FilterIsRun(s, Ledger.Dequeue(owner, index));
    assert s.completed + Ids([]) == s.completed;
  }

  function LinksAfterFlush(links: seq<Link>, owner: nat): seq<Link> {
    var f := Own(links, owner);
    if f.None? then links else Replaced(links, owner, FlushedReturned(f.value))
  }

  /** What a handle has dequeued. */
  function Returnable(links: seq<Link>, owner: nat): seq<Held> {
    var f := Own(links, owner);
    if f.None? then [] else f.value.returned
  }

  lemma FlushIsRun(s: Ledger.State, owner: nat) returns (t: Ledger.State)
    ensures Ledger.Leads(s, t) && t.filters == LinksAfterFlush(s.filters, owner)
    ensures FaceOf(t) == AfterFlush(FaceOf(s), Returnable(s.filters, owner))
  {
    t := Ledger.FilterIsRun(s, Ledger.Flush(owner));
  }

  /** The flush of a handle's injected frames. */
  lemma InjectIsRun(s: Ledger.State, q: nat, low: bool) returns (t: Ledger.State)
    requires q < |s.queues| && (low ==> s.side == Ledger.Miniport)
    ensures Ledger.Leads(s, t) && t.filters == s.filters && FaceOf(t) == AfterInject(FaceOf(s), q, low)
  {
    t := Ledger.InjectIsRun(s, q, low);
  }

  lemma ReturnIsRun(s: Ledger.State, frames: seq<nat>) returns (t: Ledger.State)
    requires multiset(frames) <= s.outside
    ensures Ledger.Leads(s, t) && t.filters == s.filters && FaceOf(t) == AfterReturn(FaceOf(s), frames)
  {
    t := Ledger.ReturnIsRun(s, frames);
  }

  lemma CloseIsRun(s: Ledger.State, q: nat) returns (t: Ledger.State)
    requires q < |s.queues|
    ensures Ledger.Leads(s, t) && t.filters == s.filters && FaceOf(t) == AfterClose(FaceOf(s), q)
  {
    t := Ledger.CloseIsRun(s, q);
  }

  /** Pause closes the rundown and returns once it has run down; restart opens it again. */
  lemma PauseIsRun(s: Ledger.State) returns (t: Ledger.State)
    requires !s.closed && !s.paused && s.count == 0
    ensures Ledger.Leads(s, t) && t.paused && t.filters == s.filters && FaceOf(t) == FaceOf(s).(closed := true)
  {
    t := Ledger.PauseIsRun(s);
  }

  lemma RestartIsRun(s: Ledger.State) returns (t: Ledger.State)
    requires s.paused
    ensures Ledger.Leads(s, t) && !t.paused && t.filters == s.filters && FaceOf(t) == FaceOf(s).(closed := false)
  {
    t := Ledger.RestartIsRun(s);
  }

  // ---- The handlers ----------------------------------------------------------------------------

  /** What a flush of injected frames answers. */
  datatype FlushResult = FlushOk | FlushTooSmall | FlushInvalid | FlushUnsupported | FlushNotReady

  /** DATA_FLUSH_OPTIONS: the low-resources form, and the RSS queue whose processor is asked for. */
  datatype FlushOptions = FlushOptions(low: bool, rssQueue: Option<nat>)

  /** The options that the driver takes. */
  predicate Supported(side: Ledger.Side, options: FlushOptions, rssQueues: nat) {
    match side
    case Lightweight => !options.low && options.rssQueue.None?
    case Miniport => options.rssQueue.Some? ==> options.rssQueue.value < rssQueues
  }

  class Datapath {
    const side: Ledger.Side
    const list: FilterList
    var count: int
    var closed: bool
    var handed: seq<nat>
    var passed: seq<nat>
    var freed: seq<nat>
    var queues: seq<seq<nat>>
    var outside: multiset<nat>

    constructor (side: Ledger.Side)
      ensures list.Valid() && fresh(list) && list.View() == []
      ensures View() == FaceOf(Ledger.Initial(side)) && passed == []
    {
      this.side := side;
      list := new FilterList();
      count, closed, handed, passed, freed, queues, outside := 0, true, [], [], [], [], multiset{};
    }

    ghost function View(): Face
      reads this`count, this`closed, this`handed, this`freed, this`queues, this`outside
    {
      Face(side, count, closed, handed, freed, queues, outside)
    }

    /** ExAcquireRundownProtectionEx. */
    method Acquire(n: nat) returns (ok: bool)
      modifies this`count
      ensures ok == !closed && count == old(count) + if ok then n else 0
    {
      ok := !closed;
      if ok {
        count := count + n;
      }
    }

    /** The miniport's send handler. Captured NBLs stay under protection; the others are completed in
        their order. When the rundown is closed the whole chain is completed at once. */
    method SendNetBufferLists(chain: seq<Arrival>)
      requires list.Valid()
      modifies this`count, this`handed, list.Filters()
      ensures list.Valid() && list.View() == LinksAfterChain(old(View()), old(list.View()), chain)
      ensures View() == AfterChain(old(View()), old(list.View()), chain, |chain|)
    {
      var ok := Acquire(|chain|);
      if ok {
        Transmit(chain);
      } else {
        HandOn(chain);
      }
    }

    /** The protected part of a send. */
    method Transmit(chain: seq<Arrival>)
      requires list.Valid()
      modifies this`count, this`handed, list.Filters()
      ensures list.Valid() && list.View() == After(old(list.View()), chain)
      ensures handed == old(handed) + ArrivalIds(Joins(old(list.View()), chain, None))
      ensures count == old(count) - |Joins(old(list.View()), chain, None)|
    {
      var rest := list.FilterChain(chain);
      HandOn(rest);
      count := count - |rest|;
    }

    /** The lightweight filter's receive handler: protection is taken for the declared count and given
        back for the uncaptured NBLs, which go up in their order. */
    method ReceiveNetBufferLists(chain: seq<Arrival>, declared: nat)
      requires list.Valid()
      modifies this`count, this`handed, list.Filters()
      ensures list.Valid() && list.View() == LinksAfterChain(old(View()), old(list.View()), chain)
      ensures View() == AfterChain(old(View()), old(list.View()), chain, declared)
    {
      var ok := Acquire(declared);
      if ok {
        Offer(chain);
      } else {
        HandOn(chain);
      }
    }

    /** The protected part of a receive. */
    method Offer(chain: seq<Arrival>)
      requires list.Valid()
      modifies this`count, this`handed, list.Filters()
      ensures list.Valid() && list.View() == After(old(list.View()), chain)
      ensures handed == old(handed) + ArrivalIds(Joins(old(list.View()), chain, None))
      ensures count == old(count) - |Joins(old(list.View()), chain, None)|
    {
      var rest := list.FilterChain(chain);
      count := count - |rest|;
      HandOn(rest);
    }

    /** Gives NBLs to NDIS, unless there are none. */
    method HandOn(rest: seq<Arrival>)
      modifies this`handed
      ensures handed == old(handed) + ArrivalIds(rest)
    {
      if rest != [] {
        handed := handed + ArrivalIds(rest);
      } else {
        assert handed + ArrivalIds(rest) == handed;
      }
    }

    /** Hands flushed NBLs to NDIS and gives their protection back. */
    method CompleteNbls(flush: seq<Held>)
      modifies this`count, this`handed
      ensures handed == old(handed) + Ids(flush) && count == old(count) - |flush|
    {
      if flush != [] {
        handed := handed + Ids(flush);
        count := count - |flush|;
      } else {
        assert handed + Ids(flush) == handed;
      }
    }

    /** The filter IOCTL, and with None the close of a handle. */
    method IrpFilter(owner: nat, params: Option<Params>)
      requires list.Valid()
      modifies this`count, this`handed, list, list.Filters()
      ensures list.Valid() && list.View() == LinksAfterSet(old(list.View()), owner, params)
      ensures View() == AfterFlush(old(View()), Flushed(old(list.View()), owner))
    {
      IdsFreed(Flushed(list.View(), owner));
      var flush, freed := list.SetFilter(owner, params);
      CompleteNbls(flush);
    }

    method WatchdogTimeout(now: Clock)
      requires list.Valid() && AllHaveContexts(list.View())
      modifies this`count, this`handed, list, list.Filters()
      ensures list.Valid()
      ensures var sweep := SweepTo(old(list.View()), |old(list.View())|, now);
        list.View() == sweep.kept && View() == AfterFlush(old(View()), sweep.flush)
    {
      var flush, freed := list.Watchdog(now);
      CompleteNbls(flush);
    }

    /** The dequeue IOCTL of a capturing handle. */
    method IrpDequeue(owner: nat, index: u32) returns (status: Status)
      requires list.Valid()
      modifies list.Filters()
      ensures list.Valid() && list.View() == LinksAfterDequeue(old(list.View()), owner, index)
      ensures var f := Own(old(list.View()), owner);
        status == if f.None? || DataFilters.Taken(f.value.queue, 0, index) == [] then NotFound else Success
    {
      status := list.Dequeue(owner, index);
    }

    /** The flush IOCTL of a capturing handle: what was dequeued is handed to NDIS; NOT_FOUND if there is
        nothing. */
    method IrpFlushDequeued(owner: nat) returns (found: bool)
      requires list.Valid()
      modifies this`count, this`handed, list.Filters()
      ensures list.Valid() && list.View() == LinksAfterFlush(old(list.View()), owner)
      ensures View() == AfterFlush(old(View()), Returnable(old(list.View()), owner))
      ensures found <==> Returnable(old(list.View()), owner) != []
    {
      IdsFreed(Returnable(list.View(), owner));
      var flush, freed := list.FlushDequeued(owner);
      CompleteNbls(flush);
      found := flush != [];
    }

    /** The flush IOCTL of an injecting handle. */
    method IrpFlush(q: nat, tooSmall: bool, options: FlushOptions, rssQueues: nat) returns (result: FlushResult)
      requires q < |queues|
      modifies this`count, this`freed, this`queues, this`outside
      ensures result == FlushTooSmall <==> tooSmall
      ensures result == FlushInvalid || result == FlushUnsupported <==> !tooSmall && !Supported(side, options, rssQueues)
      ensures result == FlushNotReady <==> !tooSmall && Supported(side, options, rssQueues) && old(queues)[q] != [] && closed
      ensures View() == if result == FlushOk || result == FlushNotReady then AfterInject(old(View()), q, options.low) else old(View())
    {
      if tooSmall {
        return FlushTooSmall;
      }
      if side == Ledger.Lightweight && (options.low || options.rssQueue.Some?) {
        return FlushUnsupported;
      }
      if side == Ledger.Miniport && options.rssQueue.Some? && options.rssQueue.value >= rssQueues {
        return FlushInvalid;
      }
      var frames := queues[q];
      queues := queues[q := []];
      if frames == [] {
        assert freed + frames == freed && outside + multiset(frames) == outside;
        return FlushOk;
      }
      result := Indicate(frames, options.low);
    }

    /** Taken off their queue, the frames are indicated under protection. */
    method Indicate(frames: seq<nat>, low: bool) returns (result: FlushResult)
      modifies this`count, this`freed, this`outside
      ensures result == if closed then FlushNotReady else FlushOk
      ensures View() == AfterIndicate(old(View()), frames, low)
    {
      var ok := Acquire(|frames|);
      if !ok {
        freed := freed + frames;
        return FlushNotReady;
      }
      if low {
        count := count - |frames|;
        freed := freed + frames;
      } else {
        outside := outside + multiset(frames);
      }
      return FlushOk;
    }

    /** The miniport's return handler: frames that NDIS is done with are freed. */
    method ReturnNetBufferLists(frames: seq<nat>)
      modifies this`count, this`freed, this`outside
      ensures View() == AfterReturn(old(View()), frames)
    {
      outside := outside - multiset(frames);
      freed := freed + frames;
      count := count - |frames|;
    }

    /** The lightweight filter's completion handler: own frames are freed and give back one unit of
        protection each; other drivers' NBLs are passed on in their order. */
    method SendNetBufferListsComplete(chain: seq<Sent>) returns (own: seq<nat>, pass: seq<nat>)
      modifies this`count, this`freed, this`passed, this`outside
      ensures Divides(chain, own, pass)
      ensures View() == AfterReturn(old(View()), own) && passed == old(passed) + pass
    {
      own, pass := FreeOwn(chain);
      outside := outside - multiset(own);
      passed := passed + pass;
    }

    /** The loop over a completed chain. */
    method FreeOwn(chain: seq<Sent>) returns (own: seq<nat>, pass: seq<nat>)
      modifies this`count, this`freed
      ensures Divides(chain, own, pass)
      ensures freed == old(freed) + own && count == old(count) - |own|
    {
      own, pass := [], [];
      for i := 0 to |chain|
        invariant own == SentIds(chain[..i], true) && pass == SentIds(chain[..i], false)
        invariant freed == old(freed) + own && count == old(count) - |own|
      {
        SentExtends(chain, i, true);
        SentExtends(chain, i, false);
        if chain[i].own {
          own := own + [chain[i].id];
          freed := freed + [chain[i].id];
          count := count - 1;
        } else {
          pass := pass + [chain[i].id];
        }
      }
      assert chain[..|chain|] == chain;
    }

    /** The close of an injecting handle frees what it still has queued. */
    method CloseQueue(q: nat)
      requires q < |queues|
      modifies this`freed, this`queues
      ensures View() == AfterClose(old(View()), q)
    {
      freed := freed + queues[q];
      queues := queues[q := []];
    }
  }
}
