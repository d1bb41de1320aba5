/** The filter list as the drivers keep it: DATA_FILTER objects linked in the order in which their
    handles set them. Each method is the part of an operation that runs under the lock. */
module FilterLists {
  import opened Bytes
  import opened DataFilters
  import opened Capture

  datatype Attached = Attached(owner: nat, filter: DataFilter)

  class FilterList {
    var links: seq<Attached>

    ghost function Filters(): set<object>
      reads this
    {
      set i | 0 <= i < |links| :: links[i].filter
    }

    ghost function View(): (v: seq<Link>)
      reads this, Filters()
      ensures |v| == |links|
    {
      seq(|links|, i requires 0 <= i < |links| && links[i].filter in Filters() reads this, Filters() =>
        Link(links[i].owner, links[i].filter.View()))
    }

    /** No filter is linked twice and no handle has two filters. */
    ghost predicate Valid()
      reads this
    {
      forall i, j :: 0 <= i < j < |links| ==> links[i].filter != links[j].filter && links[i].owner != links[j].owner
    }

    constructor ()
      ensures Valid() && View() == []
    {
      links := [];
    }

    /** Offers an NBL to the filters in order until one captures it. */
    method FilterNbl(a: Arrival) returns (captured: bool)
      requires Valid()
      modifies Filters()
      ensures Valid() && View() == AfterOne(old(View()), a)
      ensures captured == Choice(old(View()), a, 0).Some?
    {
      ghost var was := View();
      for i := 0 to |links|
        invariant View() == was
        invariant Choice(was, a, 0) == Choice(was, a, i)
      {
        assert was[i].filter == links[i].filter.View();
        var status := links[i].filter.FilterNbl(a.nbl, a.context, i !in a.denied);
        if status == Pending {
          assert Takes(was, a, i);
          assert View() == was[i := was[i].(filter := Captured(was[i].filter, a.nbl, a.context))];
          return true;
        }
        assert !Takes(was, a, i);
        assert View() == was;
      }
      return false;
    }

    /** The capture loop of a send or receive handler. Every filter's queue grows at its tail by the
        NBLs that chose it; the rest leave in their order. */
    method FilterChain(chain: seq<Arrival>) returns (rest: seq<Arrival>)
      requires Valid()
      modifies Filters()
      ensures Valid() && View() == After(old(View()), chain)
      ensures rest == Joins(old(View()), chain, None)
    {
      ghost var was := View();
      rest := [];
      for i := 0 to |chain|
        invariant Valid() && links == old(links)
        invariant View() == After(was, chain[..i])
        invariant rest == Joins(was, chain[..i], None)
      {
        CaptureStep(was, chain, i);
        var captured := FilterNbl(chain[i]);
        if !captured {
          rest := rest + [chain[i]];
        }
      }
      assert chain[..|chain|] == chain;
    }

    method Find(owner: nat) returns (at: Option<nat>)
      ensures at == Position(View(), owner, 0)
    {
      for i := 0 to |links|
        invariant Position(View(), owner, 0) == Position(View(), owner, i)
      {
        if links[i].owner == owner {
          return Some(i);
        }
      }
      return None;
    }

    /** Unlinks the filter at a position and moves everything it holds to the flush queue, freeing the
        context of every NBL on that queue. */
    method Detach(i: nat, flush: seq<Held>) returns (out: seq<Held>, freed: seq<Option<Context>>)
      requires Valid() && i < |links|
      modifies this, Filters()
      ensures Valid() && View() == Without(old(View()), i) && Filters() <= old(Filters())
      ensures out == Freed(flush + Everything(old(View())[i].filter))
      ensures freed == Contexts(flush + Everything(old(View())[i].filter))
    {
      var detached := links[i].filter;
      links := links[..i] + links[i + 1..];
      assert forall k :: 0 <= k < |links| ==> links[k] == if k < i then old(links)[k] else old(links)[k + 1];
      assert View() == Without(old(View()), i);
      out, freed := detached.FlushAllFrames(flush);
      assert View() == Without(old(View()), i);
    }

    /** Sets, replaces or clears a handle's filter. What the old one held is handed back, and a new
        filter goes to the tail of the list. */
    method SetFilter(owner: nat, params: Option<Params>) returns (flush: seq<Held>, freed: seq<Option<Context>>)
      requires Valid()
      modifies this, Filters()
      ensures View() == Cleared(old(View()), owner) + if params.Some? then [Link(owner, Filter(params.value, [], []))] else []
      ensures flush == Freed(Flushed(old(View()), owner)) && freed == Contexts(Flushed(old(View()), owner))
      ensures Valid()
    {
      ghost var was := View();
      var at := Find(owner);
      flush, freed := [], [];
      if at.Some? {
        flush, freed := Detach(at.value, []);
        assert [] + Everything(was[at.value].filter) == Flushed(was, owner);
      }
      if params.Some? {
        Attach(owner, params.value);
      }
    }

    method Attach(owner: nat, params: Params)
      requires Valid() && Position(View(), owner, 0).None?
      modifies this
      ensures Valid() && View() == old(View()) + [Link(owner, Filter(params, [], []))]
    {
      ghost var was, filters := View(), Filters();
      assert forall k :: 0 <= k < |links| ==> links[k].filter in filters && was[k].owner == links[k].owner != owner;
      var filter := new DataFilter(params);
      links := links + [Attached(owner, filter)];
      assert forall k :: 0 <= k < |was| ==> View()[k] == was[k];
      assert View() == was + [Link(owner, Filter(params, [], []))];
    }

    /** Only one filter changed. */
    ghost predicate Changed(was: seq<Link>, i: nat, f: Filter)
      requires i < |was|
      reads this, Filters()
    {
      View() == was[i := was[i].(filter := f)]
    }

    /** The dequeue IOCTL: NOT_FOUND without a filter, and otherwise what the filter answers. */
    method Dequeue(owner: nat, index: u32) returns (status: Status)
      requires Valid()
      modifies Filters()
      ensures Valid() && links == old(links)
      ensures var at := Position(old(View()), owner, 0);
        if at.None? then View() == old(View()) && status == NotFound
        else
          && Changed(old(View()), at.value, Dequeued(old(View())[at.value].filter, index))
          && status == if DataFilters.Taken(old(View())[at.value].filter.queue, 0, index) == [] then NotFound else Success
    {
      var at := Find(owner);
      if at.None? {
        return NotFound;
      }
      ghost var was := View();
      status := links[at.value].filter.DequeueFilteredFrame(index);
      assert View() == was[at.value := was[at.value].(filter := Dequeued(was[at.value].filter, index))];
    }

    /** The locked part of the flush IOCTL of a capturing handle: what was dequeued is handed back. */
    method FlushDequeued(owner: nat) returns (flush: seq<Held>, freed: seq<Option<Context>>)
      requires Valid()
      modifies Filters()
      ensures Valid() && links == old(links)
      ensures var at := Position(old(View()), owner, 0);
        if at.None? then View() == old(View()) && flush == [] && freed == []
        else
          && Changed(old(View()), at.value, FlushedReturned(old(View())[at.value].filter))
          && flush == Freed(old(View())[at.value].filter.returned) && freed == Contexts(old(View())[at.value].filter.returned)
    {
      flush, freed := [], [];
      var at := Find(owner);
      if at.Some? {
        ghost var was := View();
        flush, freed := links[at.value].filter.FlushDequeuedFrames([]);
        assert [] + was[at.value].filter.returned == was[at.value].filter.returned;
        assert View() == was[at.value := was[at.value].(filter := FlushedReturned(was[at.value].filter))];
      }
    }

    /** Detaches a filter if it holds an NBL past the grace period. */
    method Visit(i: nat, now: Clock, flush: seq<Held>, freed: seq<Option<Context>>, ghost s: Sweep)
      returns (expired: bool, flush': seq<Held>, freed': seq<Option<Context>>)
      requires Valid() && i < |links| && HasContexts(Everything(View()[i].filter))
      requires s.flush == flush && s.freed == freed
      modifies this, Filters()
      ensures Valid() && Filters() <= old(Filters())
      ensures expired <==> LinkExpired(old(View())[i], now)
      ensures View() == if expired then Without(old(View()), i) else old(View())
      ensures SweepOne(s, old(View())[i], now) == Sweep(if expired then s.kept else s.kept + [old(View())[i]], flush', freed')
    {
      ghost var f := View()[i].filter;
      assert forall k :: 0 <= k < |f.queue| ==> f.queue[k] == Everything(f)[k];
      assert forall k :: 0 <= k < |f.returned| ==> f.returned[k] == Everything(f)[|f.queue| + k];
      expired := links[i].filter.IsWatchdogExpired(now(links[i].owner));
      flush', freed' := flush, freed;
      if expired {
        var more;
        flush', more := Detach(i, flush);
        freed' := freed + more;
      }
    }

    /** The pass goes on by one filter. */
    method Advance(i: nat, now: Clock, flush: seq<Held>, freed: seq<Option<Context>>, ghost links0: seq<Link>, ghost n: nat)
      returns (i': nat, flush': seq<Held>, freed': seq<Option<Context>>)
      requires Valid() && AllHaveContexts(links0)
      requires i < |links| && Visiting(View(), links0, n, now, i, flush, freed)
      modifies this, Filters()
      ensures Valid() && Filters() <= old(Filters())
      ensures Visiting(View(), links0, n + 1, now, i', flush', freed')
    {
      ghost var s := SweepTo(links0, n, now);
      Visited(View(), links0, n, now, s);
      var expired;
      expired, flush', freed' := Visit(i, now, flush, freed, s);
      i' := if expired then i else i + 1;
    }

    /** The pass visits every filter. */
    method Pass(now: Clock, ghost was: seq<Link>) returns (flush: seq<Held>, freed: seq<Option<Context>>, ghost n: nat)
      requires Valid() && AllHaveContexts(was) && View() == was
      modifies this, Filters()
      ensures Valid() && Visiting(View(), was, n, now, |links|, flush, freed)
    {
      n, flush, freed := 0, [], [];
      var i: nat := 0;
      NoneVisited(was, now);
      while i < |links|
        invariant Valid() && Filters() <= old(Filters())
        invariant Visiting(View(), was, n, now, i, flush, freed)
        decreases |was| - n
      {
        i, flush, freed := Advance(i, now, flush, freed, was, n);
        n := n + 1;
      }
    }

    /** One watchdog pass: every filter that holds an NBL past the grace period is detached, all into
        one flush queue. */
    method Watchdog(now: Clock) returns (flush: seq<Held>, freed: seq<Option<Context>>)
      requires Valid() && AllHaveContexts(View())
      modifies this, Filters()
      ensures Valid()
      ensures Sweep(View(), flush, freed) == SweepTo(old(View()), |old(View())|, now)
    {
      ghost var was, n := View(), 0;
      flush, freed, n := Pass(now, was);
      AllVisited(View(), was, n, now, |links|, flush, freed);
    }
  }

  /** A pass has visited n filters: the list is what it kept and what it has not visited. */
  ghost predicate Visiting(v: seq<Link>, links: seq<Link>, n: nat, now: Clock, i: nat, flush: seq<Held>, freed: seq<Option<Context>>) {
    Gathered(v, links, n, now, i) == Some((flush, freed))
  }

  /** What it gathered so far. */
  ghost function Gathered(v: seq<Link>, links: seq<Link>, n: nat, now: Clock, i: nat): Option<(seq<Held>, seq<Option<Context>>)> {
    if n <= |links| then
      var s := SweepTo(links, n, now);
      if Joined(s.kept, links, n, v) && |s.kept| == i then Some((s.flush, s.freed)) else None
    else None
  }

  ghost predicate Joined(kept: seq<Link>, links: seq<Link>, n: nat, v: seq<Link>)
    requires n <= |links|
  {
    && |v| == |kept| + |links| - n
    && (forall k :: 0 <= k < |kept| ==> v[k] == kept[k])
    && (forall k :: |kept| <= k < |v| ==> v[k] == links[n + k - |kept|])
  }

  predicate AllHaveContexts(links: seq<Link>) {
    forall i :: 0 <= i < |links| ==> HasContexts(Everything(links[i].filter))
  }

  lemma Visited(v: seq<Link>, links: seq<Link>, n: nat, now: Clock, s: Sweep)
    requires n <= |links| && s == SweepTo(links, n, now) && Joined(s.kept, links, n, v)
    requires |s.kept| < |v| && AllHaveContexts(links)
    ensures n < |links| && v[|s.kept|] == links[n] && HasContexts(Everything(links[n].filter))
    ensures SweepTo(links, n + 1, now) == SweepOne(s, links[n], now)
    ensures Joined(s.kept, links, n + 1, Without(v, |s.kept|))
    ensures Joined(s.kept + [links[n]], links, n + 1, v)
  {
  }

  lemma NoneVisited(links: seq<Link>, now: Clock)
    ensures Visiting(links, links, 0, now, 0, [], [])
  {
  }

  lemma AllVisited(v: seq<Link>, links: seq<Link>, n: nat, now: Clock, i: nat, flush: seq<Held>, freed: seq<Option<Context>>)
    requires Visiting(v, links, n, now, i, flush, freed) && |v| <= i
    ensures Sweep(v, flush, freed) == SweepTo(links, |links|, now)
  {
    var s := SweepTo(links, n, now);
    JoinedAll(s.kept, links, n, v);
  }

  lemma JoinedAll(kept: seq<Link>, links: seq<Link>, n: nat, v: seq<Link>)
    requires n <= |links| && Joined(kept, links, n, v) && |v| <= |kept|
    ensures n == |links| && v == kept
  {
  }
}
