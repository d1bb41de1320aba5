/** The list of attached data filters of a miniport adapter or of a lightweight filter module, and
    the operations that run under its lock. */
module Capture {
  import opened Bytes
  import opened DataFilters
  import opened Tallies

  /** A filter in the list, with the handle that set it. */
  datatype Link = Link(owner: nat, filter: Filter)

  /** An NBL given to the list, with the context it would get and the positions of the filters for
      which the context allocation fails. */
  datatype Arrival = Arrival(nbl: Nbl, context: Context, denied: set<nat>)

  predicate Distinct(links: seq<Link>) {
    forall i, j :: 0 <= i < j < |links| ==> links[i].owner != links[j].owner
  }

  predicate AllSound(links: seq<Link>) {
    forall i :: 0 <= i < |links| ==> Sound(links[i].filter)
  }

  // ---- Accounting -----------------------------------------------------------------------------

  function Ids(q: seq<Held>): seq<nat> {
    seq(|q|, i requires 0 <= i < |q| => q[i].nbl.id)
  }

  function ArrivalIds(chain: seq<Arrival>): seq<nat> {
    seq(|chain|, i requires 0 <= i < |chain| => chain[i].nbl.id)
  }

  function FilterTally(f: Filter, key: Option<nat>): nat {
    Tally(Ids(f.queue), key) + Tally(Ids(f.returned), key)
  }

  /** The same, over every NBL that the list holds. */
  function HeldTally(links: seq<Link>, key: Option<nat>): nat {
    if links == [] then 0
    else HeldTally(links[..|links| - 1], key) + FilterTally(links[|links| - 1].filter, key)
  }

  lemma IdsConcat(a: seq<Held>, b: seq<Held>, key: Option<nat>)
    ensures Tally(Ids(a + b), key) == Tally(Ids(a), key) + Tally(Ids(b), key)
  {
    assert Ids(a + b) == Ids(a) + Ids(b);
    TallyConcat(Ids(a), Ids(b), key);
  }

  lemma IdsFreed(q: seq<Held>)
    ensures Ids(Freed(q)) == Ids(q)
  {
  }

  lemma {:induction false} HeldUpdate(links: seq<Link>, i: nat, x: Link, key: Option<nat>)
    requires i < |links|
    ensures HeldTally(links[i := x], key) + FilterTally(links[i].filter, key)
         == HeldTally(links, key) + FilterTally(x.filter, key)
    decreases |links|
  {
    var last := |links| - 1;
    if i < last {
      HeldUpdate(links[..last], i, x, key);
      assert links[i := x][..last] == links[..last][i := x];
    } else {
      assert links[i := x][..last] == links[..last];
    }
  }

  lemma HeldAppend(links: seq<Link>, x: Link, key: Option<nat>)
    ensures HeldTally(links + [x], key) == HeldTally(links, key) + FilterTally(x.filter, key)
  {
    assert (links + [x])[..|links|] == links;
  }

  lemma {:induction false} HeldConcat(a: seq<Link>, b: seq<Link>, key: Option<nat>)
    ensures HeldTally(a + b, key) == HeldTally(a, key) + HeldTally(b, key)
    decreases |b|
  {
    if b == [] {
      assert a + b == a;
    } else {
      HeldConcat(a, b[..|b| - 1], key);
      assert (a + b)[..|a| + |b| - 1] == a + b[..|b| - 1];
    }
  }

  lemma HeldRemove(links: seq<Link>, i: nat, key: Option<nat>)
    requires i < |links|
    ensures HeldTally(links, key) == HeldTally(Without(links, i), key) + FilterTally(links[i].filter, key)
  {
    var a, b := links[..i], links[i + 1..];
    HeldConcat(a, b, key);
    HeldAppend(a, links[i], key);
    HeldConcat(a + [links[i]], b, key);
    assert links == a + [links[i]] + b;
  }

  // ---- Capture --------------------------------------------------------------------------------

  predicate Takes(links: seq<Link>, a: Arrival, j: nat)
    requires j < |links|
  {
    MatchesAny(links[j].filter.params, a.nbl) && j !in a.denied
  }

  /** The first listed filter that matches the NBL and gets a context for it. */
  function Choice(links: seq<Link>, a: Arrival, from: nat): (r: Option<nat>)
    requires from <= |links|
    ensures r.Some? ==> from <= r.value < |links| && Takes(links, a, r.value)
    ensures r.Some? ==> forall j :: from <= j < r.value ==> !Takes(links, a, j)
    ensures r.None? ==> forall j :: from <= j < |links| ==> !Takes(links, a, j)
    decreases |links| - from
  {
    if from == |links| then None
    else if Takes(links, a, from) then Some(from)
    else Choice(links, a, from + 1)
  }

  /** The arrivals, in order, that go to one destination: a filter, or None for no filter. */
  function Joins(links: seq<Link>, chain: seq<Arrival>, to: Option<nat>): seq<Arrival>
  {
    if chain == [] then []
    else
      var last := chain[|chain| - 1];
      Joins(links, chain[..|chain| - 1], to) + if Choice(links, last, 0) == to then [last] else []
  }

  function Enter(chain: seq<Arrival>): seq<Held> {
    seq(|chain|, i requires 0 <= i < |chain| => Held(chain[i].nbl, Some(chain[i].context)))
  }

  function AfterOne(links: seq<Link>, a: Arrival): (r: seq<Link>)
    ensures |r| == |links|
  {
    match Choice(links, a, 0)
    case None => links
    case Some(j) => links[j := links[j].(filter := Captured(links[j].filter, a.nbl, a.context))]
  }

  predicate SameShape(links: seq<Link>, other: seq<Link>) {
    && |links| == |other|
    && forall j :: 0 <= j < |links| ==>
         links[j].owner == other[j].owner && links[j].filter.params == other[j].filter.params
  }

  lemma {:induction false} ChoiceByParams(links: seq<Link>, other: seq<Link>, a: Arrival, from: nat)
    requires SameShape(links, other) && from <= |links|
    ensures Choice(links, a, from) == Choice(other, a, from)
    decreases |links| - from
  {
    if from < |links| {
      ChoiceByParams(links, other, a, from + 1);
    }
  }

  lemma JoinsExtends(links: seq<Link>, chain: seq<Arrival>, a: Arrival, to: Option<nat>)
    ensures Joins(links, chain + [a], to) == Joins(links, chain, to) + if Choice(links, a, 0) == to then [a] else []
  {
    assert (chain + [a])[..|chain|] == chain;
  }

  lemma {:induction false} JoinsMatch(links: seq<Link>, chain: seq<Arrival>, j: nat)
    requires j < |links|
    ensures forall i :: 0 <= i < |Joins(links, chain, Some(j))| ==>
      MatchesAny(links[j].filter.params, Joins(links, chain, Some(j))[i].nbl)
    decreases |chain|
  {
    if chain != [] {
      JoinsMatch(links, chain[..|chain| - 1], j);
    }
  }

  lemma QueueGrows(f: Filter, chain: seq<Arrival>)
    requires Sound(f)
    requires forall i :: 0 <= i < |chain| ==> MatchesAny(f.params, chain[i].nbl)
    ensures Sound(f.(queue := f.queue + Enter(chain)))
  {
  }

  /** A chain is taken one NBL after the other. */
  function After(links: seq<Link>, chain: seq<Arrival>): (r: seq<Link>)
    ensures |r| == |links|
  {
    if chain == [] then links else AfterOne(After(links, chain[..|chain| - 1]), chain[|chain| - 1])
  }

  lemma {:induction false} AfterShape(links: seq<Link>, chain: seq<Arrival>)
    ensures SameShape(links, After(links, chain))
    decreases |chain|
  {
    if chain != [] {
      AfterShape(links, chain[..|chain| - 1]);
    }
  }

  /** Earlier NBLs of a chain do not change which filter takes a later one. */
  lemma ChoiceAfter(links: seq<Link>, chain: seq<Arrival>, a: Arrival)
    ensures Choice(After(links, chain), a, 0) == Choice(links, a, 0)
  {
    AfterShape(links, chain);
    ChoiceByParams(links, After(links, chain), a, 0);
  }

  /** What filter j is after a chain: its queue grew at the tail by exactly the arrivals whose first
      accepting filter it is, in their order, and nothing else changed. */
  function Grown(links: seq<Link>, chain: seq<Arrival>, j: nat): Link
    requires j < |links|
  {
    links[j].(filter := links[j].filter.(queue := links[j].filter.queue + Enter(Joins(links, chain, Some(j)))))
  }

  lemma {:induction false} AfterAt(links: seq<Link>, chain: seq<Arrival>, j: nat)
    requires j < |links|
    ensures After(links, chain)[j] == Grown(links, chain, j)
    decreases |chain|
  {
    if chain == [] {
      assert links[j].filter.queue + Enter([]) == links[j].filter.queue;
    } else {
      var before, a := chain[..|chain| - 1], chain[|chain| - 1];
      AfterAt(links, before, j);
      ChoiceAfter(links, before, a);
      GrownStep(links, before, a, j);
      assert chain == before + [a];
    }
  }

  lemma GrownStep(links: seq<Link>, chain: seq<Arrival>, a: Arrival, j: nat)
    requires j < |links|
    ensures Grown(links, chain + [a], j) ==
      if Choice(links, a, 0) == Some(j)
      then Grown(links, chain, j).(filter := Captured(Grown(links, chain, j).filter, a.nbl, a.context))
      else Grown(links, chain, j)
  {
    var joined, q := Joins(links, chain, Some(j)), links[j].filter.queue;
    JoinsExtends(links, chain, a, Some(j));
    if Choice(links, a, 0) == Some(j) {
      EnterExtends(joined, a);
      assert q + Enter(joined + [a]) == (q + Enter(joined)) + [Held(a.nbl, Some(a.context))];
    } else {
      assert joined + [] == joined;
    }
  }

  lemma AfterSound(links: seq<Link>, chain: seq<Arrival>)
    requires AllSound(links)
    ensures AllSound(After(links, chain))
  {
    forall j | 0 <= j < |links|
      ensures Sound(After(links, chain)[j].filter)
    {
      AfterAt(links, chain, j);
      JoinsMatch(links, chain, j);
      QueueGrows(links[j].filter, Joins(links, chain, Some(j)));
    }
  }

  lemma CaptureStep(links: seq<Link>, chain: seq<Arrival>, i: nat)
    requires i < |chain|
    ensures Choice(After(links, chain[..i]), chain[i], 0) == Choice(links, chain[i], 0)
    ensures After(links, chain[..i + 1]) == AfterOne(After(links, chain[..i]), chain[i])
    ensures Joins(links, chain[..i + 1], None)
         == Joins(links, chain[..i], None) + if Choice(links, chain[i], 0) == None then [chain[i]] else []
  {
    assert chain[..i + 1][..i] == chain[..i];
    ChoiceAfter(links, chain[..i], chain[i]);
  }

  lemma EnterExtends(chain: seq<Arrival>, a: Arrival)
    ensures Enter(chain + [a]) == Enter(chain) + [Held(a.nbl, Some(a.context))]
  {
  }

  lemma OneHeld(links: seq<Link>, a: Arrival, key: Option<nat>)
    ensures HeldTally(AfterOne(links, a), key)
         == HeldTally(links, key) + if Choice(links, a, 0).None? then 0 else One(a.nbl.id, key)
  {
    match Choice(links, a, 0)
    case None =>
    case Some(j) =>
      var f := links[j].filter;
      var h := [Held(a.nbl, Some(a.context))];
      HeldUpdate(links, j, links[j].(filter := Captured(f, a.nbl, a.context)), key);
      IdsConcat(f.queue, h, key);
      assert Ids(h) == [a.nbl.id];
      TallyOne(a.nbl.id, key);
  }

  /** No NBL of a chain is lost or duplicated: for every identity, what the filters gained and what
      is left over is what the chain had. */
  lemma {:induction false} ChainConserved(links: seq<Link>, chain: seq<Arrival>, key: Option<nat>)
    ensures HeldTally(After(links, chain), key) + Tally(ArrivalIds(Joins(links, chain, None)), key)
         == HeldTally(links, key) + Tally(ArrivalIds(chain), key)
    decreases |chain|
  {
    if chain != [] {
      var before, a := chain[..|chain| - 1], chain[|chain| - 1];
      ChainConserved(links, before, key);
      assert chain == before + [a];
      FiltersGain(links, before, a, key);
      RestGains(links, before, a, key);
      ArrivalsExtend(before, a, key);
    }
  }

  lemma FiltersGain(links: seq<Link>, chain: seq<Arrival>, a: Arrival, key: Option<nat>)
    ensures HeldTally(After(links, chain + [a]), key)
         == HeldTally(After(links, chain), key) + if Choice(links, a, 0).None? then 0 else One(a.nbl.id, key)
  {
    assert (chain + [a])[..|chain|] == chain;
    ChoiceAfter(links, chain, a);
    OneHeld(After(links, chain), a, key);
  }

  lemma RestGains(links: seq<Link>, chain: seq<Arrival>, a: Arrival, key: Option<nat>)
    ensures Tally(ArrivalIds(Joins(links, chain + [a], None)), key)
         == Tally(ArrivalIds(Joins(links, chain, None)), key) + if Choice(links, a, 0).None? then One(a.nbl.id, key) else 0
  {
    var rest := Joins(links, chain, None);
    JoinsExtends(links, chain, a, None);
    ArrivalsExtend(rest, a, key);
    assert rest + [] == rest;
  }

  lemma ArrivalsExtend(chain: seq<Arrival>, a: Arrival, key: Option<nat>)
    ensures Tally(ArrivalIds(chain + [a]), key) == Tally(ArrivalIds(chain), key) + One(a.nbl.id, key)
  {
    assert ArrivalIds(chain + [a]) == ArrivalIds(chain) + [a.nbl.id];
    TallyConcat(ArrivalIds(chain), [a.nbl.id], key);
    TallyOne(a.nbl.id, key);
  }

  // ---- Clearing and the watchdog --------------------------------------------------------------

  function Position(links: seq<Link>, owner: nat, from: nat): (r: Option<nat>)
    requires from <= |links|
    ensures r.Some? ==> from <= r.value < |links| && links[r.value].owner == owner
    ensures r.None? ==> forall j :: from <= j < |links| ==> links[j].owner != owner
    decreases |links| - from
  {
    if from == |links| then None else if links[from].owner == owner then Some(from) else Position(links, owner, from + 1)
  }

  function Without(links: seq<Link>, i: nat): seq<Link>
    requires i < |links|
  {
    links[..i] + links[i + 1..]
  }

  function Cleared(links: seq<Link>, owner: nat): seq<Link> {
    var at := Position(links, owner, 0);
    if at.None? then links else Without(links, at.value)
  }

  /** The NBLs that clearing an owner's filter hands back. */
  function Flushed(links: seq<Link>, owner: nat): seq<Held> {
    var at := Position(links, owner, 0);
    if at.None? then [] else Everything(links[at.value].filter)
  }

  lemma ClearedConserves(links: seq<Link>, owner: nat, key: Option<nat>)
    requires AllSound(links)
    ensures HeldTally(links, key) == HeldTally(Cleared(links, owner), key) + Tally(Ids(Flushed(links, owner)), key)
    ensures AllSound(Cleared(links, owner)) && HasContexts(Flushed(links, owner))
  {
    var at := Position(links, owner, 0);
    if at.Some? {
      HeldRemove(links, at.value, key);
      var f := links[at.value].filter;
      IdsConcat(f.queue, f.returned, key);
    }
  }

  lemma ClearedGone(links: seq<Link>, owner: nat)
    requires Distinct(links)
    ensures Distinct(Cleared(links, owner)) && Position(Cleared(links, owner), owner, 0).None?
  {
  }

  lemma {:induction false} DequeueTally(q: seq<Held>, from: nat, index: u32, key: Option<nat>)
    ensures Tally(Ids(Taken(q, from, index)), key) + Tally(Ids(Kept(q, from, index)), key) == Tally(Ids(q), key)
    decreases |q|
  {
    if q == [] {
    } else {
      DequeueTally(q[1..], from + 1, index, key);
      IdsConcat([q[0]], q[1..], key);
      assert q == [q[0]] + q[1..];
      if Picked(from, index) {
        IdsConcat([q[0]], Taken(q[1..], from + 1, index), key);
        assert [] + Kept(q[1..], from + 1, index) == Kept(q[1..], from + 1, index);
      } else {
        IdsConcat([q[0]], Kept(q[1..], from + 1, index), key);
        assert [] + Taken(q[1..], from + 1, index) == Taken(q[1..], from + 1, index);
      }
    }
  }

  /** The state of a watchdog pass: the filters that stay, the one flush queue shared by all
      expired filters, and the context pointers freed so far. */
  datatype Sweep = Sweep(kept: seq<Link>, flush: seq<Held>, freed: seq<Option<Context>>)

  /** What the clock shows during a pass when it is read for a filter, by owner. */
  type Clock = nat -> Readings

  predicate LinkExpired(x: Link, now: Clock) {
    FilterExpired(x.filter, now(x.owner))
  }

  function SweepTo(links: seq<Link>, n: nat, now: Clock): Sweep
    requires n <= |links|
  {
    if n == 0 then Sweep([], [], []) else SweepOne(SweepTo(links, n - 1, now), links[n - 1], now)
  }

  function SweepOne(s: Sweep, x: Link, now: Clock): Sweep {
    if LinkExpired(x, now) then
      var all := s.flush + Everything(x.filter);
      Sweep(s.kept, Freed(all), s.freed + Contexts(all))
    else
      s.(kept := s.kept + [x])
  }

  function ExpiredCount(links: seq<Link>, n: nat, now: Clock): nat
    requires n <= |links|
  {
    if n == 0 then 0 else ExpiredCount(links, n - 1, now) + if LinkExpired(links[n - 1], now) then 1 else 0
  }

  /** Every pointer given to the pool is a context. */
  predicate CleanFree(freed: seq<Option<Context>>) {
    forall i :: 0 <= i < |freed| ==> freed[i].Some?
  }

  lemma ExpiredHolds(x: Link, now: Clock)
    requires LinkExpired(x, now)
    ensures Everything(x.filter) != []
  {
  }

  lemma ContextsConcat(a: seq<Held>, b: seq<Held>)
    ensures Contexts(a + b) == Contexts(a) + Contexts(b)
    ensures Freed(a + b) == Freed(a) + Freed(b)
  {
  }

  lemma CleanConcat(a: seq<Option<Context>>, b: seq<Option<Context>>)
    ensures CleanFree(a + b) <==> CleanFree(a) && CleanFree(b)
  {
    if CleanFree(a + b) {
      forall i | 0 <= i < |a|
        ensures a[i].Some?
      {
        assert (a + b)[i] == a[i];
      }
      forall i | 0 <= i < |b|
        ensures b[i].Some?
      {
        assert (a + b)[|a| + i] == b[i];
      }
    }
  }

  predicate AllFreed(q: seq<Held>) {
    forall i :: 0 <= i < |q| ==> q[i].context.None?
  }

  lemma {:induction false} FlushIsFreed(links: seq<Link>, n: nat, now: Clock)
    requires n <= |links|
    ensures AllFreed(SweepTo(links, n, now).flush)
    ensures SweepTo(links, n, now).flush == [] <==> ExpiredCount(links, n, now) == 0
  {
    if n > 0 {
      FlushIsFreed(links, n - 1, now);
      var f := links[n - 1].filter;
      if LinkExpired(links[n - 1], now) {
        ExpiredHolds(links[n - 1], now);
        assert |Freed(SweepTo(links, n - 1, now).flush + Everything(f))| > 0;
      }
    }
  }

  /** What one more expired filter adds is clean exactly when the flush queue was empty. */
  lemma AddsCleanIff(flush: seq<Held>, f: Filter)
    requires Sound(f) && AllFreed(flush)
    ensures CleanFree(Contexts(flush + Everything(f))) <==> flush == []
  {
    ContextsConcat(flush, Everything(f));
    CleanConcat(Contexts(flush), Contexts(Everything(f)));
    assert flush != [] ==> Contexts(flush)[0].None?;
  }

  /** A watchdog pass frees contexts cleanly exactly when at most one filter has expired: the flush
      queue is shared, so a second expired filter frees the first one's contexts again. */
  lemma {:induction false} SweepCleanIff(links: seq<Link>, n: nat, now: Clock)
    requires n <= |links| && AllSound(links)
    ensures CleanFree(SweepTo(links, n, now).freed) <==> ExpiredCount(links, n, now) <= 1
  {
    if n > 0 {
      SweepCleanIff(links, n - 1, now);
      FlushIsFreed(links, n - 1, now);
      var s, f := SweepTo(links, n - 1, now), links[n - 1].filter;
      if LinkExpired(links[n - 1], now) {
        AddsCleanIff(s.flush, f);
        CleanConcat(s.freed, Contexts(s.flush + Everything(f)));
        assert s.flush == [] ==> CleanFree(s.freed);
      }
    }
  }

  lemma HeldPrefix(links: seq<Link>, n: nat, key: Option<nat>)
    requires 0 < n <= |links|
    ensures HeldTally(links[..n], key) == HeldTally(links[..n - 1], key) + FilterTally(links[n - 1].filter, key)
  {
    assert links[..n][..n - 1] == links[..n - 1];
  }

  function SweepTally(s: Sweep, key: Option<nat>): nat {
    HeldTally(s.kept, key) + Tally(Ids(s.flush), key)
  }

  lemma SweepOneTally(s: Sweep, x: Link, now: Clock, key: Option<nat>)
    ensures SweepTally(SweepOne(s, x, now), key) == SweepTally(s, key) + FilterTally(x.filter, key)
  {
    if LinkExpired(x, now) {
      IdsFreed(s.flush + Everything(x.filter));
      IdsConcat(s.flush, Everything(x.filter), key);
      IdsConcat(x.filter.queue, x.filter.returned, key);
    } else {
      HeldAppend(s.kept, x, key);
    }
  }

  /** However many filters expire, the pass keeps every NBL: in a filter that stays or, once, in the
      flush queue. */
  lemma {:induction false} SweepConserves(links: seq<Link>, n: nat, now: Clock, key: Option<nat>)
    requires n <= |links|
    ensures SweepTally(SweepTo(links, n, now), key) == HeldTally(links[..n], key)
  {
    if n > 0 {
      SweepConserves(links, n - 1, now, key);
      SweepOneTally(SweepTo(links, n - 1, now), links[n - 1], now, key);
      HeldPrefix(links, n, key);
    }
  }

  /** The filters that stay are the unexpired ones, in order. */
  lemma {:induction false} SweepKeeps(links: seq<Link>, n: nat, now: Clock)
    requires n <= |links| && AllSound(links) && Distinct(links)
    ensures AllSound(SweepTo(links, n, now).kept) && Distinct(SweepTo(links, n, now).kept)
    ensures forall x :: x in SweepTo(links, n, now).kept <==> x in links[..n] && !LinkExpired(x, now)
  {
    if n > 0 {
      SweepKeeps(links, n - 1, now);
      var s, x := SweepTo(links, n - 1, now), links[n - 1];
      assert links[..n] == links[..n - 1] + [x];
      forall i | 0 <= i < |s.kept|
        ensures s.kept[i].owner != x.owner
      {
        assert s.kept[i] in s.kept;
        assert s.kept[i] in links[..n - 1];
      }
    }
  }
}
