/** The data filter: a mask and pattern over frame bytes, the queue of captured NBLs (net buffer
    lists), and the queue of dequeued NBLs that wait to be returned. */
module DataFilters {
  import opened Bytes

  /** An NBL: an identity and the data of its net buffers, of which there is at least one. */
  datatype NetBufferList = Nbl(id: nat, buffers: seq<seq<bv8>>)

  type Nbl = n: NetBufferList | |n.buffers| > 0 witness Nbl(0, [[]])

  datatype Context = Context(timestamp: nat, processor: nat)

  /** An NBL in a queue. The context is what its scratch field points to; None is NULL. */
  datatype Held = Held(nbl: Nbl, context: Option<Context>)

  datatype FilterParams = Params(pattern: seq<bv8>, mask: seq<bv8>)

  /** An accepted filter has a pattern and a mask of the same positive length. */
  type Params = p: FilterParams | |p.pattern| == |p.mask| > 0 witness Params([0], [0])

  datatype Filter = Filter(params: Params, queue: seq<Held>, returned: seq<Held>)

  datatype Status = Success | Pending | NoMemory | NotFound

  /** Five seconds in units of 100 nanoseconds. */
  const GRACE_PERIOD: nat := 5 * 10_000_000

  const INDEX_RANGE: nat := 0x1_0000_0000

  // ---- Matching -------------------------------------------------------------------------------

  /** A frame matches when every masked bit it has equals the pattern's. */
  predicate Matches(p: Params, data: seq<bv8>)
  {
    forall i :: 0 <= i < |data| && i < |p.pattern| ==> SameBits(data[i], p.pattern[i], p.mask[i])
  }

  predicate SameBits(a: bv8, b: bv8, mask: bv8) {
    a & mask == b & mask
  }

  predicate MatchesAny(p: Params, nbl: Nbl)
  {
    exists i :: 0 <= i < |nbl.buffers| && Matches(p, nbl.buffers[i])
  }

  function MatchCount(p: Params, buffers: seq<seq<bv8>>): nat
  {
    if buffers == [] then 0
    else MatchCount(p, buffers[..|buffers| - 1]) + if Matches(p, buffers[|buffers| - 1]) then 1 else 0
  }

  method Differ(a: bv8, b: bv8, mask: bv8) returns (r: bool)
    ensures r <==> !SameBits(a, b, mask)
  {
    r := (a ^ b) & mask != 0;
  }

  lemma MatchCountExtends(p: Params, buffers: seq<seq<bv8>>, n: nat)
    requires n < |buffers|
    ensures MatchCount(p, buffers[..n + 1]) == MatchCount(p, buffers[..n]) + if Matches(p, buffers[n]) then 1 else 0
  {
    assert buffers[..n + 1][..n] == buffers[..n];
  }

  lemma {:induction false} MatchCountMonotone(p: Params, buffers: seq<seq<bv8>>, m: nat, n: nat)
    requires m <= n <= |buffers|
    ensures MatchCount(p, buffers[..m]) <= MatchCount(p, buffers[..n])
    decreases n - m
  {
    if m < n {
      MatchCountExtends(p, buffers, m);
      MatchCountMonotone(p, buffers, m + 1, n);
    }
  }

  lemma {:induction false} AnyMeansCounted(p: Params, buffers: seq<seq<bv8>>)
    ensures (exists i :: 0 <= i < |buffers| && Matches(p, buffers[i])) <==> MatchCount(p, buffers) > 0
    decreases |buffers|
  {
    if buffers != [] {
      var rest := buffers[..|buffers| - 1];
      AnyMeansCounted(p, rest);
      if MatchCount(p, rest) > 0 {
        var i :| 0 <= i < |rest| && Matches(p, rest[i]);
        assert Matches(p, buffers[i]);
      }
    }
  }

  // ---- Lookup by index and sub-index ----------------------------------------------------------

  /** Buffer nb is the sub-th matching one: it matches and sub matching ones precede it. */
  predicate IsSubth(p: Params, buffers: seq<seq<bv8>>, sub: nat, nb: nat)
  {
    nb < |buffers| && Matches(p, buffers[nb]) && MatchCount(p, buffers[..nb]) == sub
  }

  lemma SubthIsUnique(p: Params, buffers: seq<seq<bv8>>, sub: nat, a: nat, b: nat)
    requires IsSubth(p, buffers, sub, a) && IsSubth(p, buffers, sub, b)
    ensures a == b
  {
    if a < b {
      MatchCountExtends(p, buffers, a);
      MatchCountMonotone(p, buffers, a + 1, b);
    } else if b < a {
      MatchCountExtends(p, buffers, b);
      MatchCountMonotone(p, buffers, b + 1, a);
    }
  }

  /** Every queued NBL was captured because it matched. */
  predicate QueueMatches(f: Filter)
  {
    forall i :: 0 <= i < |f.queue| ==> MatchesAny(f.params, f.queue[i].nbl)
  }

  predicate Found(f: Filter, index: nat, sub: nat)
  {
    index < |f.queue| && sub < MatchCount(f.params, f.queue[index].nbl.buffers)
  }

  /** Sub-index 0 is found for every captured NBL. */
  lemma FirstSubIndexFound(f: Filter, index: nat)
    requires QueueMatches(f)
    ensures Found(f, index, 0) <==> index < |f.queue|
  {
    if index < |f.queue| {
      assert MatchesAny(f.params, f.queue[index].nbl);
      AnyMeansCounted(f.params, f.queue[index].nbl.buffers);
    }
  }

  // ---- Dequeue --------------------------------------------------------------------------------

  /** A 32-bit loop counter after n increments. */
  function Counter(n: nat): nat {
    n % INDEX_RANGE
  }

  function Increment(counter: nat): nat {
    (counter + 1) % INDEX_RANGE
  }

  lemma CounterStep(n: nat)
    ensures Increment(Counter(n)) == Counter(n + 1)
  {
  }

  predicate Picked(position: nat, index: u32) {
    Counter(position) == index
  }

  function Taken(q: seq<Held>, from: nat, index: u32): seq<Held> {
    if q == [] then [] else (if Picked(from, index) then [q[0]] else []) + Taken(q[1..], from + 1, index)
  }

  function Kept(q: seq<Held>, from: nat, index: u32): seq<Held> {
    if q == [] then [] else (if Picked(from, index) then [] else [q[0]]) + Kept(q[1..], from + 1, index)
  }

  function Dequeued(f: Filter, index: u32): Filter {
    f.(queue := Kept(f.queue, 0, index), returned := f.returned + Taken(f.queue, 0, index))
  }

  lemma {:induction false} TakenExtends(q: seq<Held>, from: nat, index: u32, x: Held)
    ensures Taken(q + [x], from, index) == Taken(q, from, index) + if Picked(from + |q|, index) then [x] else []
    ensures Kept(q + [x], from, index) == Kept(q, from, index) + if Picked(from + |q|, index) then [] else [x]
    decreases |q|
  {
    if q == [] {
      assert q + [x] == [x];
    } else {
      assert (q + [x])[1..] == q[1..] + [x];
      TakenExtends(q[1..], from + 1, index, x);
    }
  }

  lemma {:induction false} NonePicked(q: seq<Held>, from: nat, index: u32)
    requires from + |q| <= INDEX_RANGE && (index < from || from + |q| <= index)
    ensures Taken(q, from, index) == [] && Kept(q, from, index) == q
    decreases |q|
  {
    if q != [] {
      NonePicked(q[1..], from + 1, index);
    }
  }

  lemma {:induction false} OnePicked(q: seq<Held>, from: nat, index: u32)
    requires from + |q| <= INDEX_RANGE && from <= index < from + |q|
    ensures Taken(q, from, index) == [q[index - from]]
    ensures Kept(q, from, index) == q[..index - from] + q[index - from + 1..]
    decreases |q|
  {
    if index == from {
      NonePicked(q[1..], from + 1, index);
    } else {
      OnePicked(q[1..], from + 1, index);
      assert q[..index - from] == [q[0]] + q[1..][..index - from - 1];
    }
  }

  /** Dequeue takes exactly the NBL at the index and keeps the order of the rest; an index past
      the end changes neither queue. */
  lemma DequeueRemovesOne(f: Filter, index: u32)
    requires |f.queue| <= INDEX_RANGE
    ensures index < |f.queue| ==>
      Dequeued(f, index) == f.(queue := f.queue[..index] + f.queue[index + 1..], returned := f.returned + [f.queue[index]])
    ensures index >= |f.queue| ==> Dequeued(f, index) == f
  {
    if index < |f.queue| {
      OnePicked(f.queue, 0, index);
    } else {
      NonePicked(f.queue, 0, index);
      assert f.returned + [] == f.returned;
    }
  }

  // ---- Capture, flush and expiry --------------------------------------------------------------

  function Captured(f: Filter, nbl: Nbl, c: Context): Filter {
    f.(queue := f.queue + [Held(nbl, Some(c))])
  }

  function Freed(q: seq<Held>): seq<Held> {
    seq(|q|, i requires 0 <= i < |q| => q[i].(context := None))
  }

  function Contexts(q: seq<Held>): seq<Option<Context>> {
    seq(|q|, i requires 0 <= i < |q| => q[i].context)
  }

  predicate HasContexts(q: seq<Held>) {
    forall i :: 0 <= i < |q| ==> q[i].context.Some?
  }

  predicate Expired(q: seq<Held>, now: nat) {
    exists i :: 0 <= i < |q| && q[i].context.Some? && now > q[i].context.value.timestamp + GRACE_PERIOD
  }

  /** What the clock shows when each of the two queues is walked. */
  datatype Readings = Readings(queue: nat, returned: nat)

  predicate FilterExpired(f: Filter, now: Readings) {
    Expired(f.queue, now.queue) || Expired(f.returned, now.returned)
  }

  /** Every NBL that a filter holds has its context, and every queued one matches. */
  predicate Sound(f: Filter) {
    && HasContexts(f.queue) && HasContexts(f.returned)
    && QueueMatches(f)
  }

  function Everything(f: Filter): seq<Held> {
    f.queue + f.returned
  }

  function FlushedReturned(f: Filter): Filter {
    f.(returned := [])
  }

  function FlushedAll(f: Filter): Filter {
    f.(queue := [], returned := [])
  }

  /** The DATA_FILTER object. */
  class DataFilter {
    const params: Params
    var queue: seq<Held>
    var returned: seq<Held>

    ghost function View(): Filter
      reads this
    {
      Filter(params, queue, returned)
    }

    constructor (p: Params)
      ensures View() == Filter(p, [], [])
    {
      params := p;
      queue := [];
      returned := [];
    }

    method FilterNb(data: seq<bv8>) returns (r: bool)
      ensures r <==> Matches(params, data)
    {
      var length := if |data| < |params.pattern| then |data| else |params.pattern|;
      for index := 0 to length
        invariant forall i :: 0 <= i < index ==> SameBits(data[i], params.pattern[i], params.mask[i])
      {
        var differ := Differ(data[index], params.pattern[index], params.mask[index]);
        if differ {
          return false;
        }
      }
      return true;
    }

    /** An NBL joins the queue exactly when one of its buffers matches and its context could be
        granted. */
    method FilterNbl(nbl: Nbl, c: Context, granted: bool) returns (status: Status)
      modifies this`queue
      ensures status == if !MatchesAny(params, nbl) then Success else if granted then Pending else NoMemory
      ensures View() == if status == Pending then Captured(old(View()), nbl, c) else old(View())
    {
      var matchAny := false;
      var nb := 0;
      while nb < |nbl.buffers| && !matchAny
        invariant nb <= |nbl.buffers| && queue == old(queue)
        invariant forall i :: 0 <= i < nb ==> !Matches(params, nbl.buffers[i])
        invariant matchAny ==> nb < |nbl.buffers| && Matches(params, nbl.buffers[nb])
        decreases |nbl.buffers| - nb, !matchAny
      {
        matchAny := FilterNb(nbl.buffers[nb]);
        if !matchAny {
          nb := nb + 1;
        }
      }
      if !matchAny {
        return Success;
      }
      assert MatchesAny(params, nbl);
      if !granted {
        return NoMemory;
      }
      queue := queue + [Held(nbl, Some(c))];
      return Pending;
    }

    /** The sub-index-th matching buffer of the index-th captured NBL, or NOT_FOUND exactly when
        there is none. */
    method GetFilteredFrameNb(index: u32, subIndex: u32) returns (status: Status, nb: nat)
      ensures status == if Found(View(), index, subIndex) then Success else NotFound
      ensures status == Success ==> IsSubth(params, queue[index].nbl.buffers, subIndex, nb)
    {
      nb := 0;
      var at := 0;
      var nblIndex := 0;
      while nblIndex < index
        invariant nblIndex <= index && at == nblIndex && at <= |queue|
      {
        if at == |queue| {
          return NotFound, nb;
        }
        at := at + 1;
        nblIndex := nblIndex + 1;
      }
      if at == |queue| {
        return NotFound, nb;
      }
      status, nb := FindBuffer(queue[at].nbl, subIndex);
    }

    method FindBuffer(nbl: Nbl, subIndex: u32) returns (status: Status, nb: nat)
      ensures status == if subIndex < MatchCount(params, nbl.buffers) then Success else NotFound
      ensures status == Success ==> IsSubth(params, nbl.buffers, subIndex, nb)
    {
      var left: int := subIndex;
      nb := 0;
      while true
        invariant nb < |nbl.buffers| && left >= 0
        invariant left + MatchCount(params, nbl.buffers[..nb]) == subIndex
        decreases |nbl.buffers| - nb
      {
        var matches := FilterNb(nbl.buffers[nb]);
        MatchCountExtends(params, nbl.buffers, nb);
        if matches {
          if left == 0 {
            MatchCountMonotone(params, nbl.buffers, nb + 1, |nbl.buffers|);
            assert nbl.buffers[..|nbl.buffers|] == nbl.buffers;
            return Success, nb;
          }
          left := left - 1;
        }
        nb := nb + 1;
        if nb == |nbl.buffers| {
          assert nbl.buffers[..nb] == nbl.buffers;
          return NotFound, nb;
        }
      }
    }

    /** Pops the whole queue, diverts what the 32-bit counter picks, and puts the rest back. */
    method DequeueFilteredFrame(index: u32) returns (status: Status)
      modifies this`queue, this`returned
      ensures View() == Dequeued(old(View()), index)
      ensures status == if Taken(old(queue), 0, index) == [] then NotFound else Success
    {
      var chain: seq<Held> := [];
      status := NotFound;
      var nblIndex := Counter(0);
      ghost var done: seq<Held> := [];
      while queue != []
        invariant done + queue == old(queue)
        invariant nblIndex == Counter(|done|)
        invariant chain == Kept(done, 0, index)
        invariant returned == old(returned) + Taken(done, 0, index)
        invariant status == if Taken(done, 0, index) == [] then NotFound else Success
        decreases |queue|
      {
        ghost var rest := queue;
        var first := queue[0];
        queue := queue[1..];
        TakenExtends(done, 0, index, first);
        CounterStep(|done|);
        if nblIndex == index {
          returned := returned + [first];
          status := Success;
        } else {
          chain := chain + [first];
        }
        assert rest == [first] + queue;
        done := done + [first];
        nblIndex := Increment(nblIndex);
      }
      assert done == old(queue) && queue + chain == chain;
      queue := queue + chain;
    }

    /** Moves the dequeued NBLs to the flush queue, then frees the context of every NBL on the
        flush queue, whether or not it came from this filter. `freed` lists the pointers passed to
        the pool. */
    method FlushDequeuedFrames(flush: seq<Held>) returns (out: seq<Held>, freed: seq<Option<Context>>)
      modifies this`returned
      ensures View() == FlushedReturned(old(View()))
      ensures out == Freed(flush + old(returned)) && freed == Contexts(flush + old(returned))
    {
      out := flush + returned;
      returned := [];
      out, freed := FreeFlushedFrameContexts(out);
    }

    method FlushAllFrames(flush: seq<Held>) returns (out: seq<Held>, freed: seq<Option<Context>>)
      modifies this`queue, this`returned
      ensures View() == FlushedAll(old(View()))
      ensures out == Freed(flush + Everything(old(View())))
      ensures freed == Contexts(flush + Everything(old(View())))
    {
      out := flush + queue;
      queue := [];
      out := out + returned;
      returned := [];
      assert out == flush + Everything(old(View()));
      out, freed := FreeFlushedFrameContexts(out);
    }

    method IsWatchdogExpired(now: Readings) returns (r: bool)
      requires HasContexts(queue) && HasContexts(returned)
      ensures r <==> FilterExpired(View(), now)
    {
      r := IsQueueWatchdogExpired(queue, now.queue);
      if !r {
        r := IsQueueWatchdogExpired(returned, now.returned);
      }
    }
  }

  method FreeFlushedFrameContexts(chain: seq<Held>) returns (out: seq<Held>, freed: seq<Option<Context>>)
    ensures out == Freed(chain) && freed == Contexts(chain)
  {
    out := [];
    freed := [];
    for i := 0 to |chain|
      invariant |out| == |freed| == i
      invariant forall k :: 0 <= k < i ==> out[k] == chain[k].(context := None) && freed[k] == chain[k].context
    {
      freed := freed + [chain[i].context];
      out := out + [chain[i].(context := None)];
    }
  }

  method IsQueueWatchdogExpired(q: seq<Held>, now: nat) returns (r: bool)
    requires HasContexts(q)
    ensures r <==> Expired(q, now)
  {
    for i := 0 to |q|
      invariant !Expired(q[..i], now)
    {
      if now > q[i].context.value.timestamp + GRACE_PERIOD {
        assert Expired(q, now);
        return true;
      }
      assert q[..i + 1] == q[..i] + [q[i]];
    }
    assert q[..|q|] == q;
    return false;
  }
}
