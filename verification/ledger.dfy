/** Ownership of NBLs and rundown protection, for the miniport's send path and for the lightweight
    filter's receive path. Every step is atomic; operations interleave between their steps. */
module Ledger {
  import opened Bytes
  import opened DataFilters
  import opened Capture
  import opened Tallies

  datatype Side = Miniport | Lightweight

  /** What an operation still has to do. */
  datatype Op =
    | Admitted(nbls: seq<Nbl>)     // under protection, not yet offered to the filters
    | Uncaptured(ids: seq<nat>)    // lightweight: give protection back, then pass on
    | Passing(ids: seq<nat>)       // pass on with no protection
    | Completing(ids: seq<nat>)    // hand to NDIS, then give protection back
    | Releasing(count: nat)        // give protection back
    | Unqueued(frames: seq<nat>)   // own frames off their queue, not yet protected
    | Lent(frames: seq<nat>)       // own frames in a low-resources indication, under protection
    | Dropping(frames: seq<nat>)   // own frames to free
    | Done

  /** count and closed are the NblRundown; paused says that the pause handler returned. submitted and
      completed log what NDIS gave and got back; enqueued and freed log the frames that clients
      injected; outside holds the injected frames that NDIS has. drift adds up how far the declared
      counts were off. */
  datatype State = State(
    side: Side, count: int, closed: bool, paused: bool,
    filters: seq<Link>, ops: seq<Op>,
    queues: seq<seq<nat>>, outside: multiset<nat>,
    submitted: seq<nat>, completed: seq<nat>, enqueued: seq<nat>, freed: seq<nat>, drift: int)

  datatype Event =
    | Submit(nbls: seq<Nbl>, declared: nat)
    | Offer(op: nat, chain: seq<Arrival>)
    | GiveBack(op: nat)
    | PassOn(op: nat)
    | Complete(op: nat)
    | Release(op: nat)
    | SetFilter(owner: nat, params: Option<Params>)
    | Dequeue(owner: nat, index: u32)
    | Flush(owner: nat)
    | Watchdog(now: Clock)
    | OpenQueue
    | Enqueue(queue: nat, frame: nat)
    | TakeQueue(queue: nat)
    | CloseQueue(queue: nat)
    | Indicate(op: nat, low: bool)
    | LowReturn(op: nat)
    | Drop(op: nat)
    | ReturnFrames(frames: seq<nat>)
    | PauseBegin
    | PauseEnd
    | Restart

  function NblIds(nbls: seq<Nbl>): seq<nat> {
    seq(|nbls|, i requires 0 <= i < |nbls| => nbls[i].id)
  }

  function Nbls(chain: seq<Arrival>): seq<Nbl> {
    seq(|chain|, i requires 0 <= i < |chain| => chain[i].nbl)
  }

  /** NDIS owns every NBL of the chain: it got back each one it ever gave. */
  ghost predicate OwnedByNdis(s: State, ids: seq<nat>) {
    forall id: nat :: Tally(ids, Some(id)) <= 1 &&
      (Tally(ids, Some(id)) == 1 ==> Tally(s.submitted, Some(id)) == Tally(s.completed, Some(id)))
  }

  function WithOp(s: State, op: nat, x: Op): State
    requires op < |s.ops|
  {
    s.(ops := s.ops[op := x])
  }

  /** A flush queue, when it is not empty, becomes an operation that completes it. */
  function Finish(s: State, flush: seq<Held>): State {
    if flush == [] then s else s.(ops := s.ops + [Completing(Ids(flush))])
  }

  // ---- The capture path -----------------------------------------------------------------------

  ghost function ApplySubmit(s: State, e: Event): Option<State>
    requires e.Submit?
  {
    var ids := NblIds(e.nbls);
    if !OwnedByNdis(s, ids) || (s.side == Miniport && e.declared != |e.nbls|) then None
    else if s.closed then Some(s.(ops := s.ops + [Passing(ids)], submitted := s.submitted + ids))
    else Some(s.(ops := s.ops + [Admitted(e.nbls)], submitted := s.submitted + ids,
                 count := s.count + e.declared, drift := s.drift + e.declared - |e.nbls|))
  }

  function ApplyOffer(s: State, e: Event): Option<State>
    requires e.Offer?
  {
    if e.op < |s.ops| && s.ops[e.op].Admitted? && s.ops[e.op].nbls == Nbls(e.chain) then
      var rest := ArrivalIds(Joins(s.filters, e.chain, None));
      Some(WithOp(s, e.op,
        if s.side == Lightweight then Uncaptured(rest) else if rest == [] then Done else Completing(rest))
        .(filters := After(s.filters, e.chain)))
    else None
  }

  function ApplyHand(s: State, e: Event): Option<State>
    requires e.GiveBack? || e.PassOn? || e.Complete? || e.Release?
  {
    if e.op >= |s.ops| then None
    else
      var x := s.ops[e.op];
      match e
      case GiveBack(op) => if x.Uncaptured? then Some(WithOp(s, op, Passing(x.ids)).(count := s.count - |x.ids|)) else None
      case PassOn(op) => if x.Passing? then Some(WithOp(s, op, Done).(completed := s.completed + x.ids)) else None
      case Complete(op) => if x.Completing? then Some(WithOp(s, op, Releasing(|x.ids|)).(completed := s.completed + x.ids)) else None
      case Release(op) => if x.Releasing? then Some(WithOp(s, op, Done).(count := s.count - x.count)) else None
  }

  function ApplyFilter(s: State, e: Event): Option<State>
    requires e.SetFilter? || e.Dequeue? || e.Flush? || e.Watchdog?
  {
    match e
    case SetFilter(owner, params) =>
      var t := s.(filters := Cleared(s.filters, owner) + if params.Some? then [Link(owner, Filter(params.value, [], []))] else []);
      Some(Finish(t, Flushed(s.filters, owner)))
    case Dequeue(owner, index) =>
      var at := Position(s.filters, owner, 0);
      if at.None? then Some(s)
      else
        var x := s.filters[at.value];
        Some(s.(filters := s.filters[at.value := x.(filter := Dequeued(x.filter, index))]))
    case Flush(owner) =>
      var at := Position(s.filters, owner, 0);
      if at.None? then Some(s)
      else
        var x := s.filters[at.value];
        Some(Finish(s.(filters := s.filters[at.value := x.(filter := FlushedReturned(x.filter))]), x.filter.returned))
    case Watchdog(now) =>
      var sweep := SweepTo(s.filters, |s.filters|, now);
      Some(Finish(s.(filters := sweep.kept), sweep.flush))
  }

  // ---- Injected frames ------------------------------------------------------------------------

  /** The pool owns the frame: it got back each allocation of it. */
  predicate FreeFrame(s: State, frame: nat) {
    Tally(s.enqueued, Some(frame)) == Tally(s.freed, Some(frame))
  }

  function ApplyQueue(s: State, e: Event): Option<State>
    requires e.OpenQueue? || e.Enqueue? || e.TakeQueue? || e.CloseQueue?
  {
    match e
    case OpenQueue => Some(s.(queues := s.queues + [[]]))
    case Enqueue(q, frame) =>
      if q < |s.queues| && FreeFrame(s, frame) then
        Some(s.(queues := s.queues[q := s.queues[q] + [frame]], enqueued := s.enqueued + [frame]))
      else None
    case TakeQueue(q) =>
      if q >= |s.queues| then None
      else if s.queues[q] == [] then Some(s)
      else Some(s.(queues := s.queues[q := []], ops := s.ops + [Unqueued(s.queues[q])]))
    case CloseQueue(q) =>
      if q < |s.queues| then Some(s.(queues := s.queues[q := []], ops := s.ops + [Dropping(s.queues[q])])) else None
  }

  function ApplyFrames(s: State, e: Event): Option<State>
    requires e.Indicate? || e.LowReturn? || e.Drop?
  {
    if e.op >= |s.ops| then None
    else
      var x := s.ops[e.op];
      match e
      case Indicate(op, low) =>
        if !x.Unqueued? then None
        else if s.closed then Some(WithOp(s, op, Dropping(x.frames)))
        else if low then
          if s.side == Miniport then Some(WithOp(s, op, Lent(x.frames)).(count := s.count + |x.frames|)) else None
        else Some(WithOp(s, op, Done).(count := s.count + |x.frames|, outside := s.outside + multiset(x.frames)))
      case LowReturn(op) => if x.Lent? then Some(WithOp(s, op, Dropping(x.frames)).(count := s.count - |x.frames|)) else None
      case Drop(op) => if x.Dropping? then Some(WithOp(s, op, Done).(freed := s.freed + x.frames)) else None
  }

  /** NDIS returns frames: they are freed, then the protection is given back. The lightweight filter
      does this frame by frame. */
  function ApplyReturn(s: State, e: Event): Option<State>
    requires e.ReturnFrames?
  {
    if multiset(e.frames) <= s.outside && (s.side == Lightweight ==> |e.frames| == 1) then
      Some(s.(outside := s.outside - multiset(e.frames), freed := s.freed + e.frames,
              ops := s.ops + [Releasing(|e.frames|)]))
    else None
  }

  function ApplyPause(s: State, e: Event): Option<State>
    requires e.PauseBegin? || e.PauseEnd? || e.Restart?
  {
    match e
    case PauseBegin => if s.closed then None else Some(s.(closed := true))
    case PauseEnd => if s.closed && !s.paused && s.count == 0 then Some(s.(paused := true)) else None
    case Restart => if s.paused then Some(s.(closed := false, paused := false)) else None
  }

  ghost function Apply(s: State, e: Event): Option<State> {
    match e
    case Submit(_, _) => ApplySubmit(s, e)
    case Offer(_, _) => ApplyOffer(s, e)
    case GiveBack(_) => ApplyHand(s, e)
    case PassOn(_) => ApplyHand(s, e)
    case Complete(_) => ApplyHand(s, e)
    case Release(_) => ApplyHand(s, e)
    case SetFilter(_, _) => ApplyFilter(s, e)
    case Dequeue(_, _) => ApplyFilter(s, e)
    case Flush(_) => ApplyFilter(s, e)
    case Watchdog(_) => ApplyFilter(s, e)
    case OpenQueue => ApplyQueue(s, e)
    case Enqueue(_, _) => ApplyQueue(s, e)
    case TakeQueue(_) => ApplyQueue(s, e)
    case CloseQueue(_) => ApplyQueue(s, e)
    case Indicate(_, _) => ApplyFrames(s, e)
    case LowReturn(_) => ApplyFrames(s, e)
    case Drop(_) => ApplyFrames(s, e)
    case ReturnFrames(_) => ApplyReturn(s, e)
    case PauseBegin => ApplyPause(s, e)
    case PauseEnd => ApplyPause(s, e)
    case Restart => ApplyPause(s, e)
  }

  /** Both drivers start paused, with nothing attached. */
  function Initial(side: Side): State {
    State(side, 0, true, true, [], [], [], multiset{}, [], [], [], [], 0)
  }

  ghost function Run(s: State, events: seq<Event>): Option<State> {
    if events == [] then Some(s)
    else
      var t := Run(s, events[..|events| - 1]);
      if t.None? then None else Apply(t.value, events[|events| - 1])
  }

  ghost predicate Reachable(side: Side, s: State) {
    exists events :: Run(Initial(side), events) == Some(s)
  }

  // ---- Sums over the operations in progress ---------------------------------------------------

  /** What to add up: NBLs, injected frames, or protection owed. */
  datatype What = NblOf(key: Option<nat>) | FrameOf(key: Option<nat>) | Owed

  function Weight(x: Op, w: What): nat {
    match w
    case NblOf(key) =>
      if x.Admitted? then Tally(NblIds(x.nbls), key)
      else if x.Uncaptured? || x.Passing? || x.Completing? then Tally(x.ids, key) else 0
    case FrameOf(key) =>
      if x.Unqueued? || x.Lent? || x.Dropping? then Tally(x.frames, key) else 0
    case Owed =>
      match x
      case Admitted(nbls) => |nbls|
      case Uncaptured(ids) => |ids|
      case Completing(ids) => |ids|
      case Releasing(n) => n
      case Lent(frames) => |frames|
      case _ => 0
  }

  function Sum(ops: seq<Op>, w: What): nat {
    if ops == [] then 0 else Sum(ops[..|ops| - 1], w) + Weight(ops[|ops| - 1], w)
  }

  lemma {:induction false} SumUpdate(ops: seq<Op>, i: nat, x: Op, w: What)
    requires i < |ops|
    ensures Sum(ops[i := x], w) + Weight(ops[i], w) == Sum(ops, w) + Weight(x, w)
    decreases |ops|
  {
    var last := |ops| - 1;
    if i < last {
      SumUpdate(ops[..last], i, x, w);
      assert ops[i := x][..last] == ops[..last][i := x];
    } else {
      assert ops[i := x][..last] == ops[..last];
    }
  }

  lemma SumAppend(ops: seq<Op>, x: Op, w: What)
    ensures Sum(ops + [x], w) == Sum(ops, w) + Weight(x, w)
  {
    assert (ops + [x])[..|ops|] == ops;
  }

  lemma {:induction false} SumBounds(ops: seq<Op>, i: nat, w: What)
    requires i < |ops|
    ensures Weight(ops[i], w) <= Sum(ops, w)
    decreases |ops|
  {
    if i < |ops| - 1 {
      SumBounds(ops[..|ops| - 1], i, w);
    }
  }

  function QueueTally(queues: seq<seq<nat>>, key: Option<nat>): nat {
    if queues == [] then 0 else QueueTally(queues[..|queues| - 1], key) + Tally(queues[|queues| - 1], key)
  }

  lemma {:induction false} QueueUpdate(queues: seq<seq<nat>>, i: nat, x: seq<nat>, key: Option<nat>)
    requires i < |queues|
    ensures QueueTally(queues[i := x], key) + Tally(queues[i], key) == QueueTally(queues, key) + Tally(x, key)
    decreases |queues|
  {
    var last := |queues| - 1;
    if i < last {
      QueueUpdate(queues[..last], i, x, key);
      assert queues[i := x][..last] == queues[..last][i := x];
    } else {
      assert queues[i := x][..last] == queues[..last];
    }
  }

  function BagTally(bag: multiset<nat>, key: Option<nat>): nat {
    if key.None? then |bag| else bag[key.value]
  }

  lemma {:induction false} BagOf(ids: seq<nat>, key: Option<nat>)
    ensures BagTally(multiset(ids), key) == Tally(ids, key)
  {
    if ids != [] {
      BagOf(ids[..|ids| - 1], key);
      assert ids == ids[..|ids| - 1] + [ids[|ids| - 1]];
    }
  }

  // ---- The invariant --------------------------------------------------------------------------

  /** Every NBL that NDIS gave is in a filter, in an operation in progress, or back with NDIS. */
  predicate Balanced(s: State, key: Option<nat>) {
    Tally(s.submitted, key) == HeldTally(s.filters, key) + Sum(s.ops, NblOf(key)) + Tally(s.completed, key)
  }

  /** Every injected frame is queued, in an operation, with NDIS, or freed. */
  predicate FramesBalanced(s: State, key: Option<nat>) {
    Tally(s.enqueued, key)
    == QueueTally(s.queues, key) + Sum(s.ops, FrameOf(key)) + BagTally(s.outside, key) + Tally(s.freed, key)
  }

  /** What the rundown should count. */
  function Protected(s: State): nat {
    HeldTally(s.filters, None) + Sum(s.ops, Owed) + |s.outside|
  }

  predicate CountTracks(s: State) {
    s.count == Protected(s) + s.drift
  }

  /** NDIS gets each NBL back before it gives it again. */
  predicate AtMostOnce(s: State, id: nat) {
    Tally(s.submitted, Some(id)) <= Tally(s.completed, Some(id)) + 1
  }

  predicate PauseSound(s: State) {
    s.paused ==> s.closed
  }

  ghost predicate Inv(s: State) {
    && (forall key :: Balanced(s, key))
    && (forall key :: FramesBalanced(s, key))
    && CountTracks(s)
    && (forall id :: AtMostOnce(s, id))
    && AllSound(s.filters) && Distinct(s.filters)
    && PauseSound(s)
    && (s.side == Miniport ==> s.drift == 0)
  }

  lemma {:induction false} NblTally(chain: seq<Arrival>)
    ensures NblIds(Nbls(chain)) == ArrivalIds(chain)
  {
  }

  // ---- NBLs are conserved ---------------------------------------------------------------------

  lemma FinishTally(s: State, flush: seq<Held>, w: What)
    ensures w.NblOf? ==> Sum(Finish(s, flush).ops, w) == Sum(s.ops, w) + Tally(Ids(flush), w.key)
    ensures w.FrameOf? ==> Sum(Finish(s, flush).ops, w) == Sum(s.ops, w)
    ensures w.Owed? ==> Sum(Finish(s, flush).ops, w) == Sum(s.ops, w) + |flush|
  {
    SumAppend(s.ops, Completing(Ids(flush)), w);
  }

  lemma SubmitBalanced(s: State, e: Event, t: State, key: Option<nat>)
    requires e.Submit? && ApplySubmit(s, e) == Some(t) && Balanced(s, key)
    ensures Balanced(t, key)
  {
    TallyConcat(s.submitted, NblIds(e.nbls), key);
    SumAppend(s.ops, t.ops[|s.ops|], NblOf(key));
  }

  lemma OfferBalanced(s: State, e: Event, t: State, key: Option<nat>)
    requires e.Offer? && ApplyOffer(s, e) == Some(t) && Balanced(s, key)
    ensures Balanced(t, key)
  {
    SumUpdate(s.ops, e.op, t.ops[e.op], NblOf(key));
    ChainConserved(s.filters, e.chain, key);
    NblTally(e.chain);
  }

  lemma HandBalanced(s: State, e: Event, t: State, key: Option<nat>)
    requires (e.GiveBack? || e.PassOn? || e.Complete? || e.Release?) && ApplyHand(s, e) == Some(t) && Balanced(s, key)
    ensures Balanced(t, key)
  {
    SumUpdate(s.ops, e.op, t.ops[e.op], NblOf(key));
    if e.PassOn? || e.Complete? {
      TallyConcat(s.completed, s.ops[e.op].ids, key);
    }
  }

  /** What a filter operation takes out of the list is what it flushes. */
  function FlushOf(s: State, e: Event): seq<Held>
    requires e.SetFilter? || e.Dequeue? || e.Flush? || e.Watchdog?
  {
    match e
    case SetFilter(owner, _) => Flushed(s.filters, owner)
    case Dequeue(_, _) => []
    case Flush(owner) =>
      var at := Position(s.filters, owner, 0);
      if at.None? then [] else s.filters[at.value].filter.returned
    case Watchdog(now) => SweepTo(s.filters, |s.filters|, now).flush
  }

  lemma ReplaceTally(links: seq<Link>, i: nat, f: Filter, key: Option<nat>)
    requires i < |links|
    ensures HeldTally(links[i := links[i].(filter := f)], key) + FilterTally(links[i].filter, key)
         == HeldTally(links, key) + FilterTally(f, key)
  {
    HeldUpdate(links, i, links[i].(filter := f), key);
  }

  lemma SetFilterTallies(links: seq<Link>, owner: nat, params: Option<Params>, key: Option<nat>)
    requires AllSound(links)
    ensures HeldTally(Cleared(links, owner) + if params.Some? then [Link(owner, Filter(params.value, [], []))] else [], key)
          + Tally(Ids(Flushed(links, owner)), key) == HeldTally(links, key)
  {
    ClearedConserves(links, owner, key);
    if params.Some? {
      HeldAppend(Cleared(links, owner), Link(owner, Filter(params.value, [], [])), key);
      assert Ids([]) == [];
    } else {
      assert Cleared(links, owner) + [] == Cleared(links, owner);
    }
  }

  lemma DequeueTallies(links: seq<Link>, at: nat, index: u32, key: Option<nat>)
    requires at < |links|
    ensures HeldTally(links[at := links[at].(filter := Dequeued(links[at].filter, index))], key) == HeldTally(links, key)
  {
    var f := links[at].filter;
    ReplaceTally(links, at, Dequeued(f, index), key);
    DequeueTally(f.queue, 0, index, key);
    IdsConcat(f.returned, DataFilters.Taken(f.queue, 0, index), key);
  }

  lemma FlushTallies(links: seq<Link>, at: nat, key: Option<nat>)
    requires at < |links|
    ensures HeldTally(links[at := links[at].(filter := FlushedReturned(links[at].filter))], key)
          + Tally(Ids(links[at].filter.returned), key) == HeldTally(links, key)
  {
    ReplaceTally(links, at, FlushedReturned(links[at].filter), key);
    assert Ids([]) == [];
  }

  lemma WatchdogTallies(s: State, e: Event, t: State, key: Option<nat>)
    requires e.Watchdog? && ApplyFilter(s, e) == Some(t)
    ensures HeldTally(t.filters, key) + Tally(Ids(FlushOf(s, e)), key) == HeldTally(s.filters, key)
  {
    SweepConserves(s.filters, |s.filters|, e.now, key);
    assert s.filters[..|s.filters|] == s.filters;
  }

  lemma FilterTallies(s: State, e: Event, t: State, key: Option<nat>)
    requires (e.SetFilter? || e.Dequeue? || e.Flush? || e.Watchdog?) && ApplyFilter(s, e) == Some(t)
    requires AllSound(s.filters)
    ensures HeldTally(t.filters, key) + Tally(Ids(FlushOf(s, e)), key) == HeldTally(s.filters, key)
  {
    match e
    case SetFilter(owner, params) =>
      SetFilterTallies(s.filters, owner, params, key);
    case Dequeue(owner, index) =>
      var at := Position(s.filters, owner, 0);
      if at.Some? {
        DequeueTallies(s.filters, at.value, index, key);
      }
    case Flush(owner) =>
      var at := Position(s.filters, owner, 0);
      if at.Some? {
        FlushTallies(s.filters, at.value, key);
      }
    case Watchdog(_) =>
      WatchdogTallies(s, e, t, key);
  }

  lemma FilterShape(s: State, e: Event, t: State)
    requires (e.SetFilter? || e.Dequeue? || e.Flush? || e.Watchdog?) && ApplyFilter(s, e) == Some(t)
    ensures t == Finish(s.(filters := t.filters), FlushOf(s, e))
  {
  }

  lemma FilterBalanced(s: State, e: Event, t: State, key: Option<nat>)
    requires (e.SetFilter? || e.Dequeue? || e.Flush? || e.Watchdog?) && ApplyFilter(s, e) == Some(t)
    requires AllSound(s.filters) && Balanced(s, key)
    ensures Balanced(t, key)
  {
    FilterShape(s, e, t);
    FilterTallies(s, e, t, key);
    FinishTally(s.(filters := t.filters), FlushOf(s, e), NblOf(key));
  }

  predicate IsFilterEvent(e: Event) {
    e.SetFilter? || e.Dequeue? || e.Flush? || e.Watchdog?
  }

  predicate IsHandEvent(e: Event) {
    e.GiveBack? || e.PassOn? || e.Complete? || e.Release?
  }

  predicate IsQueueEvent(e: Event) {
    e.OpenQueue? || e.Enqueue? || e.TakeQueue? || e.CloseQueue?
  }

  predicate IsFrameEvent(e: Event) {
    e.Indicate? || e.LowReturn? || e.Drop?
  }

  predicate IsFrameOp(x: Op) {
    x.Unqueued? || x.Lent? || x.Dropping? || x.Done?
  }

  /** Nothing about the NBLs that NDIS gave differs, except for the operations. */
  predicate SameNbls(s: State, t: State) {
    t.filters == s.filters && t.submitted == s.submitted && t.completed == s.completed
  }

  lemma OpBalanced(s: State, t: State, op: nat, key: Option<nat>)
    requires Balanced(s, key) && SameNbls(s, t) && op < |s.ops| && IsFrameOp(s.ops[op])
    requires |t.ops| == |s.ops| && t.ops == s.ops[op := t.ops[op]] && IsFrameOp(t.ops[op])
    ensures Balanced(t, key)
  {
    SumUpdate(s.ops, op, t.ops[op], NblOf(key));
  }

  lemma NewOpBalanced(s: State, t: State, key: Option<nat>)
    requires Balanced(s, key) && SameNbls(s, t)
    requires t.ops == s.ops || (|t.ops| == |s.ops| + 1 && t.ops == s.ops + [t.ops[|s.ops|]] && IsFrameOp(t.ops[|s.ops|]))
    ensures Balanced(t, key)
  {
    if t.ops != s.ops {
      SumAppend(s.ops, t.ops[|s.ops|], NblOf(key));
    }
  }

  lemma QueueShape(s: State, e: Event, t: State)
    requires IsQueueEvent(e) && ApplyQueue(s, e) == Some(t)
    ensures SameNbls(s, t) && t.count == s.count && t.outside == s.outside && t.drift == s.drift
    ensures t.ops == s.ops || (|t.ops| == |s.ops| + 1 && t.ops == s.ops + [t.ops[|s.ops|]]
                               && (t.ops[|s.ops|].Unqueued? || t.ops[|s.ops|].Dropping?))
  {
  }

  lemma IndicateShape(s: State, e: Event, t: State)
    requires IsFrameEvent(e) && ApplyFrames(s, e) == Some(t)
    ensures SameNbls(s, t) && e.op < |s.ops| == |t.ops| && t.ops == s.ops[e.op := t.ops[e.op]]
    ensures IsFrameOp(s.ops[e.op]) && IsFrameOp(t.ops[e.op])
  {
  }

  lemma ReturnBalanced(s: State, e: Event, t: State, key: Option<nat>)
    requires e.ReturnFrames? && ApplyReturn(s, e) == Some(t) && Balanced(s, key)
    ensures Balanced(t, key)
  {
    SumAppend(s.ops, Releasing(|e.frames|), NblOf(key));
  }

  // ---- Injected frames are conserved ----------------------------------------------------------

  lemma EnqueueFrames(s: State, e: Event, t: State, key: Option<nat>)
    requires (e.OpenQueue? || e.Enqueue?) && ApplyQueue(s, e) == Some(t) && FramesBalanced(s, key)
    ensures FramesBalanced(t, key)
  {
    if e.OpenQueue? {
      assert t.queues[..|s.queues|] == s.queues;
    } else {
      QueueUpdate(s.queues, e.queue, t.queues[e.queue], key);
      TallyConcat(s.queues[e.queue], [e.frame], key);
      TallyConcat(s.enqueued, [e.frame], key);
    }
  }

  lemma TakeFrames(s: State, e: Event, t: State, key: Option<nat>)
    requires (e.TakeQueue? || e.CloseQueue?) && ApplyQueue(s, e) == Some(t) && FramesBalanced(s, key)
    ensures FramesBalanced(t, key)
  {
    if t != s {
      QueueUpdate(s.queues, e.queue, [], key);
      SumAppend(s.ops, t.ops[|s.ops|], FrameOf(key));
    }
  }

  lemma BagPlus(bag: multiset<nat>, ids: seq<nat>, key: Option<nat>)
    ensures BagTally(bag + multiset(ids), key) == BagTally(bag, key) + Tally(ids, key)
    ensures multiset(ids) <= bag ==> BagTally(bag - multiset(ids), key) + Tally(ids, key) == BagTally(bag, key)
  {
    BagOf(ids, key);
    if multiset(ids) <= bag {
      assert bag == (bag - multiset(ids)) + multiset(ids);
    }
  }

  lemma IndicateFrames(s: State, e: Event, t: State, key: Option<nat>)
    requires e.Indicate? && ApplyFrames(s, e) == Some(t) && FramesBalanced(s, key)
    ensures FramesBalanced(t, key)
  {
    var frames := s.ops[e.op].frames;
    SumUpdate(s.ops, e.op, t.ops[e.op], FrameOf(key));
    BagPlus(s.outside, frames, key);
  }

  lemma DropFrames(s: State, e: Event, t: State, key: Option<nat>)
    requires (e.LowReturn? || e.Drop?) && ApplyFrames(s, e) == Some(t) && FramesBalanced(s, key)
    ensures FramesBalanced(t, key)
  {
    SumUpdate(s.ops, e.op, t.ops[e.op], FrameOf(key));
    TallyConcat(s.freed, s.ops[e.op].frames, key);
  }

  lemma ReturnedFrames(s: State, e: Event, t: State, key: Option<nat>)
    requires e.ReturnFrames? && ApplyReturn(s, e) == Some(t) && FramesBalanced(s, key)
    ensures FramesBalanced(t, key)
  {
    BagPlus(s.outside, e.frames, key);
    TallyConcat(s.freed, e.frames, key);
    SumAppend(s.ops, Releasing(|e.frames|), FrameOf(key));
  }

  lemma SubmitFrames(s: State, e: Event, t: State, key: Option<nat>)
    requires e.Submit? && ApplySubmit(s, e) == Some(t) && FramesBalanced(s, key)
    ensures FramesBalanced(t, key)
  {
    SumAppend(s.ops, t.ops[|s.ops|], FrameOf(key));
  }

  lemma OfferFrames(s: State, e: Event, t: State, key: Option<nat>)
    requires e.Offer? && ApplyOffer(s, e) == Some(t) && FramesBalanced(s, key)
    ensures FramesBalanced(t, key)
  {
    SumUpdate(s.ops, e.op, t.ops[e.op], FrameOf(key));
  }

  lemma HandFrames(s: State, e: Event, t: State, key: Option<nat>)
    requires IsHandEvent(e) && ApplyHand(s, e) == Some(t) && FramesBalanced(s, key)
    ensures FramesBalanced(t, key)
  {
    HandShape(s, e, t, key);
    SumUpdate(s.ops, e.op, t.ops[e.op], FrameOf(key));
  }

  lemma HandShape(s: State, e: Event, t: State, key: Option<nat>)
    requires IsHandEvent(e) && ApplyHand(s, e) == Some(t)
    ensures e.op < |s.ops| == |t.ops| && t.ops == s.ops[e.op := t.ops[e.op]]
    ensures Weight(s.ops[e.op], FrameOf(key)) == Weight(t.ops[e.op], FrameOf(key)) == 0
    ensures t.queues == s.queues && t.outside == s.outside && t.enqueued == s.enqueued && t.freed == s.freed
  {
  }

  lemma FilterFrames(s: State, e: Event, t: State, key: Option<nat>)
    requires IsFilterEvent(e) && ApplyFilter(s, e) == Some(t) && FramesBalanced(s, key)
    ensures FramesBalanced(t, key)
  {
    FilterShape(s, e, t);
    FinishTally(s.(filters := t.filters), FlushOf(s, e), FrameOf(key));
  }

  // ---- The rundown count ----------------------------------------------------------------------

  lemma OfferCount(s: State, e: Event, t: State)
    requires e.Offer? && ApplyOffer(s, e) == Some(t) && CountTracks(s)
    ensures CountTracks(t)
  {
    SumUpdate(s.ops, e.op, t.ops[e.op], Owed);
    ChainConserved(s.filters, e.chain, None);
    TallyAll(ArrivalIds(e.chain));
    TallyAll(ArrivalIds(Joins(s.filters, e.chain, None)));
  }

  lemma FilterCount(s: State, e: Event, t: State)
    requires IsFilterEvent(e) && ApplyFilter(s, e) == Some(t) && CountTracks(s) && AllSound(s.filters)
    ensures CountTracks(t)
  {
    FilterShape(s, e, t);
    FilterTallies(s, e, t, None);
    FinishTally(s.(filters := t.filters), FlushOf(s, e), Owed);
    TallyAll(Ids(FlushOf(s, e)));
  }

  lemma IndicateCount(s: State, e: Event, t: State)
    requires e.Indicate? && ApplyFrames(s, e) == Some(t) && CountTracks(s)
    ensures CountTracks(t)
  {
    SumUpdate(s.ops, e.op, t.ops[e.op], Owed);
    assert |s.outside + multiset(s.ops[e.op].frames)| == |s.outside| + |s.ops[e.op].frames|;
  }

  lemma DropCount(s: State, e: Event, t: State)
    requires (e.LowReturn? || e.Drop?) && ApplyFrames(s, e) == Some(t) && CountTracks(s)
    ensures CountTracks(t)
  {
    SumUpdate(s.ops, e.op, t.ops[e.op], Owed);
  }

  lemma ReturnCount(s: State, e: Event, t: State)
    requires e.ReturnFrames? && ApplyReturn(s, e) == Some(t) && CountTracks(s)
    ensures CountTracks(t)
  {
    SumAppend(s.ops, Releasing(|e.frames|), Owed);
    BagPlus(s.outside, e.frames, None);
    TallyAll(e.frames);
  }

  lemma HandCount(s: State, e: Event, t: State)
    requires IsHandEvent(e) && ApplyHand(s, e) == Some(t) && CountTracks(s)
    ensures CountTracks(t)
  {
    SumUpdate(s.ops, e.op, t.ops[e.op], Owed);
  }

  lemma SubmitCount(s: State, e: Event, t: State)
    requires e.Submit? && ApplySubmit(s, e) == Some(t) && CountTracks(s)
    ensures CountTracks(t)
  {
    SumAppend(s.ops, t.ops[|s.ops|], Owed);
  }

  lemma QueueCount(s: State, e: Event, t: State)
    requires IsQueueEvent(e) && ApplyQueue(s, e) == Some(t) && CountTracks(s)
    ensures CountTracks(t)
  {
    QueueShape(s, e, t);
    if t.ops != s.ops {
      SumAppend(s.ops, t.ops[|s.ops|], Owed);
    }
  }

  // ---- The rest of the invariant --------------------------------------------------------------

  lemma SubmitOnce(s: State, e: Event, t: State, id: nat)
    requires e.Submit? && ApplySubmit(s, e) == Some(t) && AtMostOnce(s, id)
    ensures AtMostOnce(t, id)
  {
    TallyConcat(s.submitted, NblIds(e.nbls), Some(id));
  }

  lemma HandOnce(s: State, e: Event, t: State, id: nat)
    requires IsHandEvent(e) && ApplyHand(s, e) == Some(t) && AtMostOnce(s, id)
    ensures AtMostOnce(t, id)
  {
    if e.PassOn? || e.Complete? {
      TallyConcat(s.completed, s.ops[e.op].ids, Some(id));
    }
  }

  lemma {:induction false} DequeueKeeps(q: seq<Held>, from: nat, index: u32, x: Held)
    requires x in Kept(q, from, index) || x in DataFilters.Taken(q, from, index)
    ensures x in q
    decreases |q|
  {
    if x != q[0] {
      DequeueKeeps(q[1..], from + 1, index, x);
    }
  }

  lemma DequeueSound(f: Filter, index: u32)
    requires Sound(f)
    ensures Sound(Dequeued(f, index))
  {
    var g := Dequeued(f, index);
    forall i | 0 <= i < |g.queue|
      ensures g.queue[i].context.Some? && MatchesAny(f.params, g.queue[i].nbl)
    {
      DequeueKeeps(f.queue, 0, index, g.queue[i]);
    }
    forall i | 0 <= i < |g.returned|
      ensures g.returned[i].context.Some?
    {
      if i >= |f.returned| {
        DequeueKeeps(f.queue, 0, index, g.returned[i]);
      }
    }
  }

  lemma SetFilterSound(links: seq<Link>, owner: nat, params: Option<Params>)
    requires AllSound(links) && Distinct(links)
    ensures var r := Cleared(links, owner) + if params.Some? then [Link(owner, Filter(params.value, [], []))] else [];
      AllSound(r) && Distinct(r)
  {
    ClearedConserves(links, owner, None);
    ClearedGone(links, owner);
  }

  lemma ReplaceSound(links: seq<Link>, at: nat, f: Filter)
    requires AllSound(links) && Distinct(links) && at < |links| && Sound(f)
    ensures AllSound(links[at := links[at].(filter := f)]) && Distinct(links[at := links[at].(filter := f)])
  {
  }

  lemma FilterSound(s: State, e: Event, t: State)
    requires IsFilterEvent(e) && ApplyFilter(s, e) == Some(t) && AllSound(s.filters) && Distinct(s.filters)
    ensures AllSound(t.filters) && Distinct(t.filters)
  {
    match e
    case SetFilter(owner, params) =>
      SetFilterSound(s.filters, owner, params);
    case Dequeue(owner, index) =>
      var at := Position(s.filters, owner, 0);
      if at.Some? {
        DequeueSound(s.filters[at.value].filter, index);
        ReplaceSound(s.filters, at.value, Dequeued(s.filters[at.value].filter, index));
      }
    case Flush(owner) =>
      var at := Position(s.filters, owner, 0);
      if at.Some? {
        ReplaceSound(s.filters, at.value, FlushedReturned(s.filters[at.value].filter));
      }
    case Watchdog(now) =>
      SweepKeeps(s.filters, |s.filters|, now);
  }

  // ---- Every step keeps the invariant ---------------------------------------------------------

  lemma SubmitKeepsInv(s: State, e: Event, t: State)
    requires e.Submit? && ApplySubmit(s, e) == Some(t) && Inv(s)
    ensures Inv(t)
  {
    forall key ensures Balanced(t, key) { SubmitBalanced(s, e, t, key); }
    forall key ensures FramesBalanced(t, key) { SubmitFrames(s, e, t, key); }
    forall id ensures AtMostOnce(t, id) { SubmitOnce(s, e, t, id); }
    SubmitCount(s, e, t);
  }

  lemma OfferKeepsInv(s: State, e: Event, t: State)
    requires e.Offer? && ApplyOffer(s, e) == Some(t) && Inv(s)
    ensures Inv(t)
  {
    forall key ensures Balanced(t, key) { OfferBalanced(s, e, t, key); }
    forall key ensures FramesBalanced(t, key) { OfferFrames(s, e, t, key); }
    forall id ensures AtMostOnce(t, id) { assert AtMostOnce(s, id); }
    OfferCount(s, e, t);
    AfterSound(s.filters, e.chain);
    AfterShape(s.filters, e.chain);
  }

  lemma HandKeepsInv(s: State, e: Event, t: State)
    requires IsHandEvent(e) && ApplyHand(s, e) == Some(t) && Inv(s)
    ensures Inv(t)
  {
    forall key ensures Balanced(t, key) { HandBalanced(s, e, t, key); }
    forall key ensures FramesBalanced(t, key) { HandFrames(s, e, t, key); }
    forall id ensures AtMostOnce(t, id) { HandOnce(s, e, t, id); }
    HandCount(s, e, t);
  }

  lemma FilterKeepsInv(s: State, e: Event, t: State)
    requires IsFilterEvent(e) && ApplyFilter(s, e) == Some(t) && Inv(s)
    ensures Inv(t)
  {
    FilterShape(s, e, t);
    forall key ensures Balanced(t, key) { FilterBalanced(s, e, t, key); }
    forall key ensures FramesBalanced(t, key) { FilterFrames(s, e, t, key); }
    forall id ensures AtMostOnce(t, id) { assert AtMostOnce(s, id); }
    FilterCount(s, e, t);
    FilterSound(s, e, t);
  }

  lemma QueueKeepsInv(s: State, e: Event, t: State)
    requires IsQueueEvent(e) && ApplyQueue(s, e) == Some(t) && Inv(s)
    ensures Inv(t)
  {
    QueueShape(s, e, t);
    forall key ensures Balanced(t, key) { NewOpBalanced(s, t, key); }
    forall key
      ensures FramesBalanced(t, key)
    {
      if e.OpenQueue? || e.Enqueue? {
        EnqueueFrames(s, e, t, key);
      } else {
        TakeFrames(s, e, t, key);
      }
    }
    forall id ensures AtMostOnce(t, id) { assert AtMostOnce(s, id); }
    QueueCount(s, e, t);
  }

  lemma IndicateKeepsInv(s: State, e: Event, t: State)
    requires IsFrameEvent(e) && ApplyFrames(s, e) == Some(t) && Inv(s)
    ensures Inv(t)
  {
    IndicateShape(s, e, t);
    forall key ensures Balanced(t, key) { OpBalanced(s, t, e.op, key); }
    forall key
      ensures FramesBalanced(t, key)
    {
      if e.Indicate? {
        IndicateFrames(s, e, t, key);
      } else {
        DropFrames(s, e, t, key);
      }
    }
    forall id ensures AtMostOnce(t, id) { assert AtMostOnce(s, id); }
    if e.Indicate? {
      IndicateCount(s, e, t);
    } else {
      DropCount(s, e, t);
    }
  }

  lemma ReturnKeepsInv(s: State, e: Event, t: State)
    requires e.ReturnFrames? && ApplyReturn(s, e) == Some(t) && Inv(s)
    ensures Inv(t)
  {
    forall key ensures Balanced(t, key) { ReturnBalanced(s, e, t, key); }
    forall key ensures FramesBalanced(t, key) { ReturnedFrames(s, e, t, key); }
    forall id ensures AtMostOnce(t, id) { assert AtMostOnce(s, id); }
    ReturnCount(s, e, t);
  }

  lemma PauseKeepsInv(s: State, e: Event, t: State)
    requires (e.PauseBegin? || e.PauseEnd? || e.Restart?) && ApplyPause(s, e) == Some(t) && Inv(s)
    ensures Inv(t)
  {
    forall key ensures Balanced(t, key) { assert Balanced(s, key); }
    forall key ensures FramesBalanced(t, key) { assert FramesBalanced(s, key); }
    forall id ensures AtMostOnce(t, id) { assert AtMostOnce(s, id); }
  }

  lemma StepKeepsInv(s: State, e: Event, t: State)
    requires Apply(s, e) == Some(t) && Inv(s)
    ensures Inv(t)
  {
    if e.Submit? {
      SubmitKeepsInv(s, e, t);
    } else if e.Offer? {
      OfferKeepsInv(s, e, t);
    } else if IsHandEvent(e) {
      HandKeepsInv(s, e, t);
    } else if IsFilterEvent(e) {
      FilterKeepsInv(s, e, t);
    } else if IsQueueEvent(e) {
      QueueKeepsInv(s, e, t);
    } else if IsFrameEvent(e) {
      IndicateKeepsInv(s, e, t);
    } else if e.ReturnFrames? {
      ReturnKeepsInv(s, e, t);
    } else {
      PauseKeepsInv(s, e, t);
    }
  }

  lemma {:induction false} RunKeepsInv(s: State, events: seq<Event>, t: State)
    requires Inv(s) && Run(s, events) == Some(t)
    ensures Inv(t)
    decreases |events|
  {
    if events != [] {
      var before := events[..|events| - 1];
      RunKeepsInv(s, before, Run(s, before).value);
      StepKeepsInv(Run(s, before).value, events[|events| - 1], t);
    }
  }

  lemma ReachableInv(side: Side, s: State)
    requires Reachable(side, s)
    ensures Inv(s)
  {
    var events :| Run(Initial(side), events) == Some(s);
    InitialInv(side);
    RunKeepsInv(Initial(side), events, s);
  }

  lemma InitialInv(side: Side)
    ensures Inv(Initial(side))
  {
    var s := Initial(side);
    forall key ensures Balanced(s, key) {}
    forall key ensures FramesBalanced(s, key) {}
    forall id ensures AtMostOnce(s, id) {}
  }

  // ---- What holds in every reachable state ----------------------------------------------------

  /** An NBL goes back to NDIS at most once each time it is given, and in between it is in exactly
      one place: one filter's queue or return queue, or one operation. */
  lemma OwnedOnce(side: Side, s: State, id: nat)
    requires Reachable(side, s)
    ensures var given, back := Tally(s.submitted, Some(id)), Tally(s.completed, Some(id));
      && back <= given <= back + 1
      && HeldTally(s.filters, Some(id)) + Sum(s.ops, NblOf(Some(id))) == given - back
  {
    ReachableInv(side, s);
    assert Balanced(s, Some(id)) && AtMostOnce(s, id);
  }

  /** The pool gets each frame back before it gives it again. */
  predicate FrameOnce(s: State, id: nat) {
    Tally(s.enqueued, Some(id)) <= Tally(s.freed, Some(id)) + 1
  }

  lemma FrameOnceStep(s: State, e: Event, t: State, id: nat)
    requires Apply(s, e) == Some(t) && FrameOnce(s, id)
    ensures FrameOnce(t, id)
  {
    if e.Enqueue? {
      TallyConcat(s.enqueued, [e.frame], Some(id));
      TallyOne(e.frame, Some(id));
    } else if e.Drop? {
      TallyConcat(s.freed, s.ops[e.op].frames, Some(id));
    } else if e.ReturnFrames? {
      TallyConcat(s.freed, e.frames, Some(id));
    } else {
      FrameLogs(s, e, t);
    }
  }

  lemma FrameLogs(s: State, e: Event, t: State)
    requires Apply(s, e) == Some(t) && !e.Enqueue? && !e.Drop? && !e.ReturnFrames?
    ensures t.enqueued == s.enqueued && t.freed == s.freed
  {
  }

  lemma {:induction false} FrameOnceRun(side: Side, events: seq<Event>, s: State, id: nat)
    requires Run(Initial(side), events) == Some(s)
    ensures FrameOnce(s, id)
    decreases |events|
  {
    if events != [] {
      var before := events[..|events| - 1];
      FrameOnceRun(side, before, Run(Initial(side), before).value, id);
      FrameOnceStep(Run(Initial(side), before).value, events[|events| - 1], s, id);
    }
  }

  /** An injected frame is freed at most once each time it is allocated, and in between it is in exactly
      one place: one queue, one operation, or with NDIS. */
  lemma FramesFreedOnce(side: Side, s: State, id: nat)
    requires Reachable(side, s)
    ensures var made, freed := Tally(s.enqueued, Some(id)), Tally(s.freed, Some(id));
      && freed <= made <= freed + 1
      && QueueTally(s.queues, Some(id)) + Sum(s.ops, FrameOf(Some(id))) + s.outside[id] == made - freed
  {
    ReachableInv(side, s);
    assert FramesBalanced(s, Some(id));
    var events :| Run(Initial(side), events) == Some(s);
    FrameOnceRun(side, events, s, id);
  }

  /** The rundown counts exactly what is protected if and only if the declared counts added up; the
      miniport counts the chain itself, so there it always does. */
  lemma CountIsExact(side: Side, s: State)
    requires Reachable(side, s)
    ensures s.count == Protected(s) <==> s.drift == 0
    ensures s.side == Miniport ==> s.drift == 0
  {
    ReachableInv(side, s);
  }

  lemma {:induction false} HonestCounts(side: Side, events: seq<Event>, s: State)
    requires Run(Initial(side), events) == Some(s)
    requires forall i :: 0 <= i < |events| && events[i].Submit? ==> events[i].declared == |events[i].nbls|
    ensures s.drift == 0
    decreases |events|
  {
    if events != [] {
      var before, e := events[..|events| - 1], events[|events| - 1];
      HonestCounts(side, before, Run(Initial(side), before).value);
      DriftStep(Run(Initial(side), before).value, e, s);
    }
  }

  lemma DriftStep(s: State, e: Event, t: State)
    requires Apply(s, e) == Some(t)
    ensures t.drift == s.drift || (e.Submit? && t.drift == s.drift + e.declared - |e.nbls|)
  {
  }

  lemma {:induction false} NothingHeld(links: seq<Link>, i: nat)
    requires HeldTally(links, None) == 0 && i < |links|
    ensures Everything(links[i].filter) == []
    decreases |links|
  {
    if i < |links| - 1 {
      NothingHeld(links[..|links| - 1], i);
    } else {
      TallyAll(Ids(links[i].filter.queue));
      TallyAll(Ids(links[i].filter.returned));
    }
  }

  /** When the pause handler can return, no filter holds an NBL, NDIS has no injected frame, and no
      operation has protection to give back. */
  lemma PauseWaits(side: Side, s: State)
    requires Reachable(side, s) && s.drift == 0 && s.count == 0
    ensures forall i :: 0 <= i < |s.filters| ==> Everything(s.filters[i].filter) == []
    ensures s.outside == multiset{}
    ensures forall i :: 0 <= i < |s.ops| ==> Weight(s.ops[i], Owed) == 0
  {
    ReachableInv(side, s);
    forall i | 0 <= i < |s.filters|
      ensures Everything(s.filters[i].filter) == []
    {
      NothingHeld(s.filters, i);
    }
    forall i | 0 <= i < |s.ops|
      ensures Weight(s.ops[i], Owed) == 0
    {
      SumBounds(s.ops, i, Owed);
    }
  }

  /** No operation is still passing NBLs on without protection. */
  predicate NothingPassing(ops: seq<Op>) {
    forall i :: 0 <= i < |ops| && ops[i].Passing? ==> ops[i].ids == []
  }

  /** NDIS got back every NBL it gave. */
  ghost predicate AllBack(s: State) {
    forall id: nat :: Tally(s.submitted, Some(id)) == Tally(s.completed, Some(id))
  }

  lemma {:induction false} SumZero(ops: seq<Op>, w: What)
    requires forall i :: 0 <= i < |ops| ==> Weight(ops[i], w) == 0
    ensures Sum(ops, w) == 0
    decreases |ops|
  {
    if ops != [] {
      SumZero(ops[..|ops| - 1], w);
    }
  }

  lemma {:induction false} EmptyFilters(links: seq<Link>, key: Option<nat>)
    requires forall i :: 0 <= i < |links| ==> Everything(links[i].filter) == []
    ensures HeldTally(links, key) == 0
    decreases |links|
  {
    if links != [] {
      EmptyFilters(links[..|links| - 1], key);
      var f := links[|links| - 1].filter;
      assert |Everything(f)| == |f.queue| + |f.returned|;
    }
  }

  /** An operation that owes no protection has NBLs only if it is passing them on. */
  lemma UnprotectedHasNone(x: Op, id: nat)
    requires Weight(x, Owed) == 0 && (x.Passing? ==> x.ids == [])
    ensures Weight(x, NblOf(Some(id))) == 0
  {
    if x.Admitted? {
      assert NblIds(x.nbls) == [];
    }
  }

  /** When the pause handler can return, NDIS has every NBL back if and only if no operation is passing
      NBLs on without protection. */
  lemma PauseIsCompleteIff(side: Side, s: State)
    requires Reachable(side, s) && s.drift == 0 && s.count == 0
    ensures AllBack(s) <==> NothingPassing(s.ops)
  {
    PauseWaits(side, s);
    if NothingPassing(s.ops) {
      forall id: nat ensures Tally(s.submitted, Some(id)) == Tally(s.completed, Some(id)) {
        OwnedOnce(side, s, id);
        EmptyFilters(s.filters, Some(id));
        forall i | 0 <= i < |s.ops| ensures Weight(s.ops[i], NblOf(Some(id))) == 0 {
          UnprotectedHasNone(s.ops[i], id);
        }
        SumZero(s.ops, NblOf(Some(id)));
      }
    }
    if AllBack(s) {
      forall i | 0 <= i < |s.ops| && s.ops[i].Passing? ensures s.ops[i].ids == [] {
        PassingIsBack(side, s, i);
      }
    }
  }

  lemma PassingIsBack(side: Side, s: State, i: nat)
    requires Reachable(side, s) && AllBack(s) && i < |s.ops| && s.ops[i].Passing?
    ensures s.ops[i].ids == []
  {
    var ids := s.ops[i].ids;
    if ids != [] {
      var id := ids[|ids| - 1];
      assert Tally(ids, Some(id)) >= 1;
      SumBounds(s.ops, i, NblOf(Some(id)));
      OwnedOnce(side, s, id);
    }
  }

  /** No NBL is submitted while the rundown is closed. */
  ghost predicate NoLateSubmit(side: Side, events: seq<Event>)
    requires Run(Initial(side), events).Some?
    decreases |events|
  {
    events == [] ||
      var before := events[..|events| - 1];
      NoLateSubmit(side, before) && (events[|events| - 1].Submit? ==> !Run(Initial(side), before).value.closed)
  }

  predicate MiniportIdle(s: State) {
    s.side == Miniport && forall i :: 0 <= i < |s.ops| ==> !s.ops[i].Passing? && !s.ops[i].Uncaptured?
  }

  lemma MiniportIdleCapture(s: State, e: Event, t: State)
    requires (e.Submit? && !s.closed && ApplySubmit(s, e) == Some(t)) || (e.Offer? && ApplyOffer(s, e) == Some(t))
    requires MiniportIdle(s)
    ensures MiniportIdle(t)
  {
  }

  lemma MiniportIdleHand(s: State, e: Event, t: State)
    requires IsHandEvent(e) && ApplyHand(s, e) == Some(t) && MiniportIdle(s)
    ensures MiniportIdle(t)
  {
  }

  lemma MiniportIdleFilter(s: State, e: Event, t: State)
    requires IsFilterEvent(e) && ApplyFilter(s, e) == Some(t) && MiniportIdle(s)
    ensures MiniportIdle(t)
  {
    FilterShape(s, e, t);
  }

  lemma MiniportIdleFrames(s: State, e: Event, t: State)
    requires IsFrameEvent(e) && ApplyFrames(s, e) == Some(t) && MiniportIdle(s)
    ensures MiniportIdle(t)
  {
    IndicateShape(s, e, t);
  }

  lemma MiniportIdleOther(s: State, e: Event, t: State)
    requires || (IsQueueEvent(e) && ApplyQueue(s, e) == Some(t)) || (e.ReturnFrames? && ApplyReturn(s, e) == Some(t))
             || ((e.PauseBegin? || e.PauseEnd? || e.Restart?) && ApplyPause(s, e) == Some(t))
    requires MiniportIdle(s)
    ensures MiniportIdle(t)
  {
    if IsQueueEvent(e) {
      QueueShape(s, e, t);
    }
  }

  lemma MiniportIdleStep(s: State, e: Event, t: State)
    requires Apply(s, e) == Some(t) && MiniportIdle(s) && (e.Submit? ==> !s.closed)
    ensures MiniportIdle(t)
  {
    if e.Submit? || e.Offer? {
      MiniportIdleCapture(s, e, t);
    } else if IsHandEvent(e) {
      MiniportIdleHand(s, e, t);
    } else if IsFilterEvent(e) {
      MiniportIdleFilter(s, e, t);
    } else if IsFrameEvent(e) {
      MiniportIdleFrames(s, e, t);
    } else {
      MiniportIdleOther(s, e, t);
    }
  }

  lemma {:induction false} MiniportIdleRun(events: seq<Event>, s: State)
    requires Run(Initial(Miniport), events) == Some(s) && NoLateSubmit(Miniport, events)
    ensures MiniportIdle(s)
    decreases |events|
  {
    if events != [] {
      var before := events[..|events| - 1];
      MiniportIdleRun(before, Run(Initial(Miniport), before).value);
      MiniportIdleStep(Run(Initial(Miniport), before).value, events[|events| - 1], s);
    }
  }

  /** If NDIS sends nothing after a pause began, the miniport's pause returns with every NBL back. */
  lemma MiniportPauseIsComplete(events: seq<Event>, s: State)
    requires Run(Initial(Miniport), events) == Some(s) && NoLateSubmit(Miniport, events) && s.count == 0
    ensures AllBack(s)
  {
    assert Reachable(Miniport, s);
    MiniportIdleRun(events, s);
    CountIsExact(Miniport, s);
    PauseIsCompleteIff(Miniport, s);
  }

  /** No release takes more than the count has. */
  lemma ReleaseCovered(side: Side, s: State, op: nat)
    requires Reachable(side, s) && s.drift == 0 && op < |s.ops|
    ensures Weight(s.ops[op], Owed) <= s.count
  {
    ReachableInv(side, s);
    SumBounds(s.ops, op, Owed);
  }

  /** Clearing, replacing and flushing free one context per NBL and never a NULL one. */
  lemma FlushIsClean(side: Side, s: State, e: Event)
    requires Reachable(side, s) && (e.SetFilter? || e.Flush?)
    ensures CleanFree(Contexts(FlushOf(s, e)))
  {
    ReachableInv(side, s);
    if e.SetFilter? {
      ClearedConserves(s.filters, e.owner, None);
    }
  }

  /** A watchdog pass does so exactly when at most one filter has expired. */
  lemma WatchdogIsCleanIff(side: Side, s: State, now: Clock)
    requires Reachable(side, s)
    ensures CleanFree(SweepTo(s.filters, |s.filters|, now).freed) <==> ExpiredCount(s.filters, |s.filters|, now) <= 1
  {
    ReachableInv(side, s);
    SweepCleanIff(s.filters, |s.filters|, now);
  }

  /** Sub-index 0 of every captured NBL can be read. */
  lemma CapturedReadable(side: Side, s: State, i: nat, index: nat)
    requires Reachable(side, s) && i < |s.filters|
    ensures Found(s.filters[i].filter, index, 0) <==> index < |s.filters[i].filter.queue|
  {
    ReachableInv(side, s);
    FirstSubIndexFound(s.filters[i].filter, index);
  }

  // ---- While paused ---------------------------------------------------------------------------

  predicate PausedEmpty(s: State) {
    s.paused && s.drift == 0 ==> s.count == 0
  }

  lemma PausedHand(s: State, e: Event, t: State)
    requires IsHandEvent(e) && ApplyHand(s, e) == Some(t) && CountTracks(s) && PausedEmpty(s)
    ensures PausedEmpty(t)
  {
    SumBounds(s.ops, e.op, Owed);
  }

  lemma PausedFrames(s: State, e: Event, t: State)
    requires IsFrameEvent(e) && ApplyFrames(s, e) == Some(t) && CountTracks(s) && PausedEmpty(s) && PauseSound(s)
    ensures PausedEmpty(t)
  {
    SumBounds(s.ops, e.op, Owed);
  }

  lemma PausedOther(s: State, e: Event, t: State)
    requires Apply(s, e) == Some(t) && !IsHandEvent(e) && !IsFrameEvent(e) && PausedEmpty(s) && PauseSound(s)
    ensures PausedEmpty(t)
  {
    if IsFilterEvent(e) {
      FilterShape(s, e, t);
    }
  }

  lemma PausedStep(s: State, e: Event, t: State)
    requires Apply(s, e) == Some(t) && Inv(s) && PausedEmpty(s)
    ensures PausedEmpty(t)
  {
    if IsHandEvent(e) {
      PausedHand(s, e, t);
    } else if IsFrameEvent(e) {
      PausedFrames(s, e, t);
    } else {
      PausedOther(s, e, t);
    }
  }

  lemma {:induction false} PausedRun(side: Side, events: seq<Event>, s: State)
    requires Run(Initial(side), events) == Some(s)
    ensures PausedEmpty(s)
    decreases |events|
  {
    if events != [] {
      var before := events[..|events| - 1];
      var t := Run(Initial(side), before).value;
      PausedRun(side, before, t);
      assert Reachable(side, t);
      ReachableInv(side, t);
      PausedStep(t, events[|events| - 1], s);
    }
  }

  /** From the end of a pause to the restart the rundown stays at zero, so the restart reinitialises
      one that protects nothing. */
  lemma PausedStaysEmpty(side: Side, s: State)
    requires Reachable(side, s) && s.paused && s.drift == 0
    ensures s.closed && s.count == 0 && Protected(s) == 0
  {
    ReachableInv(side, s);
    var events :| Run(Initial(side), events) == Some(s);
    PausedRun(side, events, s);
  }

  // ---- Runs ----------------------------------------------------------------------------------

  ghost predicate Leads(s: State, t: State) {
    exists events :: Run(s, events) == Some(t)
  }

  lemma LeadsOn(s0: State, s: State, e: Event, t: State)
    requires Leads(s0, s) && Apply(s, e) == Some(t)
    ensures Leads(s0, t)
  {
    var events :| Run(s0, events) == Some(s);
    assert (events + [e])[..|events|] == events;
    assert Run(s0, events + [e]) == Some(t);
  }

  lemma Extend(side: Side, s: State, e: Event, t: State)
    requires Reachable(side, s) && Apply(s, e) == Some(t)
    ensures Reachable(side, t)
  {
    var events :| Run(Initial(side), events) == Some(s);
    assert Leads(Initial(side), s);
    LeadsOn(Initial(side), s, e, t);
  }

  lemma SubmitLeads(s: State, chain: seq<Arrival>, declared: nat, t: State)
    requires OwnedByNdis(s, ArrivalIds(chain)) && (s.side == Miniport ==> declared == |chain|)
    requires t == s.(submitted := s.submitted + ArrivalIds(chain),
                     ops := s.ops + [if s.closed then Passing(ArrivalIds(chain)) else Admitted(Nbls(chain))],
                     count := s.count + (if s.closed then 0 else declared),
                     drift := s.drift + (if s.closed then 0 else declared - |chain|))
    ensures Leads(s, t)
  {
    assert Run(s, []) == Some(s);
    NblTally(chain);
    assert ApplySubmit(s, Submit(Nbls(chain), declared)) == Some(t);
    LeadsOn(s, s, Submit(Nbls(chain), declared), t);
  }

  lemma OfferLeads(s0: State, s: State, op: nat, chain: seq<Arrival>, x: Op, t: State)
    requires Leads(s0, s) && op < |s.ops| && s.ops[op] == Admitted(Nbls(chain))
    requires var rest := ArrivalIds(Joins(s.filters, chain, None));
      x == if s.side == Lightweight then Uncaptured(rest) else if rest == [] then Done else Completing(rest)
    requires t == s.(ops := s.ops[op := x], filters := After(s.filters, chain))
    ensures Leads(s0, t)
  {
    assert ApplyOffer(s, Offer(op, chain)) == Some(t);
    LeadsOn(s0, s, Offer(op, chain), t);
  }

  lemma PassLeads(s0: State, s: State, op: nat, t: State)
    requires Leads(s0, s) && op < |s.ops| && s.ops[op].Passing?
    requires t == s.(ops := s.ops[op := Done], completed := s.completed + s.ops[op].ids)
    ensures Leads(s0, t)
  {
    LeadsOn(s0, s, PassOn(op), t);
  }

  lemma CompleteLeads(s0: State, s: State, op: nat, t: State)
    requires Leads(s0, s) && op < |s.ops| && s.ops[op].Completing?
    requires t == s.(ops := s.ops[op := Done], completed := s.completed + s.ops[op].ids, count := s.count - |s.ops[op].ids|)
    ensures Leads(s0, t)
  {
    var u := s.(ops := s.ops[op := Releasing(|s.ops[op].ids|)], completed := s.completed + s.ops[op].ids);
    assert ApplyHand(s, Complete(op)) == Some(u);
    LeadsOn(s0, s, Complete(op), u);
    assert u.ops[op := Done] == t.ops;
    ReleaseLeads(s0, u, op, t);
  }

  lemma ReleaseLeads(s0: State, s: State, op: nat, t: State)
    requires Leads(s0, s) && op < |s.ops| && s.ops[op].Releasing?
    requires t == s.(ops := s.ops[op := Done], count := s.count - s.ops[op].count)
    ensures Leads(s0, t)
  {
    assert ApplyHand(s, Release(op)) == Some(t);
    LeadsOn(s0, s, Release(op), t);
  }

  lemma GiveBackLeads(s0: State, s: State, op: nat, t: State)
    requires Leads(s0, s) && op < |s.ops| && s.ops[op].Uncaptured?
    requires t == s.(ops := s.ops[op := Done], completed := s.completed + s.ops[op].ids, count := s.count - |s.ops[op].ids|)
    ensures Leads(s0, t)
  {
    var u := s.(ops := s.ops[op := Passing(s.ops[op].ids)], count := s.count - |s.ops[op].ids|);
    assert ApplyHand(s, GiveBack(op)) == Some(u);
    LeadsOn(s0, s, GiveBack(op), u);
    assert u.ops[op := Done] == t.ops;
    PassLeads(s0, u, op, t);
  }

  /** Nothing but the filters, the count and what NDIS got differs, besides operations and logs. */
  predicate SameInjection(s: State, t: State) {
    t.side == s.side && t.closed == s.closed && t.paused == s.paused && t.queues == s.queues && t.outside == s.outside && t.freed == s.freed
  }

  /** Nothing but injected frames and the count differs, besides operations and logs. */
  predicate SameCapture(s: State, t: State) {
    t.side == s.side && t.closed == s.closed && t.paused == s.paused && t.filters == s.filters && t.completed == s.completed
  }

  /** A send or receive that nothing interrupts, from any state in which NDIS owns the chain, is a run with
      the outcome that the handlers compute. */
  lemma HandlerIsRun(s: State, chain: seq<Arrival>, declared: nat) returns (t: State)
    requires OwnedByNdis(s, ArrivalIds(chain)) && (s.side == Miniport ==> declared == |chain|)
    ensures Leads(s, t) && SameInjection(s, t)
    ensures s.closed ==> t.filters == s.filters && t.completed == s.completed + ArrivalIds(chain) && t.count == s.count
    ensures !s.closed ==> t.filters == After(s.filters, chain)
    ensures !s.closed ==> t.completed == s.completed + ArrivalIds(Joins(s.filters, chain, None))
    ensures !s.closed ==> t.count == s.count + declared - |Joins(s.filters, chain, None)|
  {
    var n := |s.ops|;
    var u := s.(submitted := s.submitted + ArrivalIds(chain),
                ops := s.ops + [if s.closed then Passing(ArrivalIds(chain)) else Admitted(Nbls(chain))],
                count := s.count + (if s.closed then 0 else declared),
                drift := s.drift + (if s.closed then 0 else declared - |chain|));
    SubmitLeads(s, chain, declared, u);
    if s.closed {
      t := u.(ops := u.ops[n := Done], completed := s.completed + ArrivalIds(chain));
      PassLeads(s, u, n, t);
    } else {
      t := ProtectedPart(s, u, n, chain);
    }
  }

  /** The protected part of a handler. */
  lemma ProtectedPart(s0: State, s: State, op: nat, chain: seq<Arrival>) returns (t: State)
    requires Leads(s0, s) && op < |s.ops| && s.ops[op] == Admitted(Nbls(chain))
    ensures Leads(s0, t) && SameInjection(s, t) && t.filters == After(s.filters, chain)
    ensures t.completed == s.completed + ArrivalIds(Joins(s.filters, chain, None))
    ensures t.count == s.count - |Joins(s.filters, chain, None)|
  {
    var rest := ArrivalIds(Joins(s.filters, chain, None));
    var x := if s.side == Lightweight then Uncaptured(rest) else if rest == [] then Done else Completing(rest);
    var u := s.(ops := s.ops[op := x], filters := After(s.filters, chain));
    OfferLeads(s0, s, op, chain, x, u);
    if x == Done {
      t := u;
      assert s.completed + rest == s.completed;
    } else {
      t := u.(ops := u.ops[op := Done], completed := s.completed + rest, count := s.count - |rest|);
      if s.side == Lightweight {
        GiveBackLeads(s0, u, op, t);
      } else {
        CompleteLeads(s0, u, op, t);
      }
    }
  }

  // ---- The other operations, uninterrupted ----------------------------------------------------

  lemma Stays(s: State)
    ensures Leads(s, s)
  {
    assert Run(s, []) == Some(s);
  }

  /** A flush queue is handed to NDIS and its protection given back. */
  lemma FlushLeads(s0: State, s: State, flush: seq<Held>) returns (t: State)
    requires Leads(s0, Finish(s, flush))
    ensures Leads(s0, t) && SameInjection(s, t) && t.filters == s.filters
    ensures t.completed == s.completed + Ids(flush) && t.count == s.count - |flush|
  {
    var u := Finish(s, flush);
    if flush == [] {
      t := u;
      assert s.completed + Ids(flush) == s.completed;
    } else {
      var n := |s.ops|;
      t := u.(ops := u.ops[n := Done], completed := s.completed + Ids(flush), count := s.count - |flush|);
      CompleteLeads(s0, u, n, t);
    }
  }

  /** What a filter operation leaves of the filters. */
  function FiltersAfter(s: State, e: Event): seq<Link>
    requires IsFilterEvent(e)
  {
    match e
    case SetFilter(owner, params) =>
      Cleared(s.filters, owner) + if params.Some? then [Link(owner, Filter(params.value, [], []))] else []
    case Dequeue(owner, index) =>
      var at := Position(s.filters, owner, 0);
      if at.None? then s.filters else s.filters[at.value := s.filters[at.value].(filter := Dequeued(s.filters[at.value].filter, index))]
    case Flush(owner) =>
      var at := Position(s.filters, owner, 0);
      if at.None? then s.filters else s.filters[at.value := s.filters[at.value].(filter := FlushedReturned(s.filters[at.value].filter))]
    case Watchdog(now) => SweepTo(s.filters, |s.filters|, now).kept
  }

  /** Setting or clearing a filter, dequeuing, flushing and a watchdog pass: what leaves the filters is handed
      to NDIS, and its protection is given back. */
  lemma FilterIsRun(s: State, e: Event) returns (t: State)
    requires IsFilterEvent(e)
    ensures Leads(s, t) && SameInjection(s, t) && t.filters == FiltersAfter(s, e)
    ensures t.completed == s.completed + Ids(FlushOf(s, e)) && t.count == s.count - |FlushOf(s, e)|
  {
    var u := s.(filters := FiltersAfter(s, e));
    Stays(s);
    assert ApplyFilter(s, e) == Some(Finish(u, FlushOf(s, e)));
    LeadsOn(s, s, e, Finish(u, FlushOf(s, e)));
    t := FlushLeads(s, u, FlushOf(s, e));
  }

  /** The frames of a queue are taken off it. */
  lemma TakeLeads(s: State, q: nat, t: State)
    requires q < |s.queues| && s.queues[q] != []
    requires t == s.(queues := s.queues[q := []], ops := s.ops + [Unqueued(s.queues[q])])
    ensures Leads(s, t)
  {
    Stays(s);
    assert ApplyQueue(s, TakeQueue(q)) == Some(t);
    LeadsOn(s, s, TakeQueue(q), t);
  }

  lemma DropLeads(s0: State, s: State, op: nat, t: State)
    requires Leads(s0, s) && op < |s.ops| && s.ops[op].Dropping?
    requires t == s.(ops := s.ops[op := Done], freed := s.freed + s.ops[op].frames)
    ensures Leads(s0, t)
  {
    assert ApplyFrames(s, Drop(op)) == Some(t);
    LeadsOn(s0, s, Drop(op), t);
  }

  lemma IndicateLeads(s0: State, s: State, op: nat, low: bool, t: State)
    requires Leads(s0, s) && op < |s.ops| && s.ops[op].Unqueued? && (low ==> s.side == Miniport)
    requires var frames := s.ops[op].frames;
      t == if s.closed then s.(ops := s.ops[op := Dropping(frames)])
           else if low then s.(ops := s.ops[op := Lent(frames)], count := s.count + |frames|)
           else s.(ops := s.ops[op := Done], count := s.count + |frames|, outside := s.outside + multiset(frames))
    ensures Leads(s0, t)
  {
    assert ApplyFrames(s, Indicate(op, low)) == Some(t);
    LeadsOn(s0, s, Indicate(op, low), t);
  }

  lemma LentLeads(s0: State, s: State, op: nat, t: State)
    requires Leads(s0, s) && op < |s.ops| && s.ops[op].Lent?
    requires t == s.(ops := s.ops[op := Dropping(s.ops[op].frames)], count := s.count - |s.ops[op].frames|)
    ensures Leads(s0, t)
  {
    assert ApplyFrames(s, LowReturn(op)) == Some(t);
    LeadsOn(s0, s, LowReturn(op), t);
  }

  /** The flush of a handle's injected frames: on a running adapter NDIS gets them all, under protection; in the
      low-resources form they come back at once and are freed; with the rundown closed they are freed. */
  lemma InjectIsRun(s: State, q: nat, low: bool) returns (t: State)
    requires q < |s.queues| && (low ==> s.side == Miniport)
    ensures Leads(s, t) && SameCapture(s, t) && t.queues == s.queues[q := []]
    ensures !s.closed && !low ==>
      t.outside == s.outside + multiset(s.queues[q]) && t.count == s.count + |s.queues[q]| && t.freed == s.freed
    ensures s.closed || low ==> t.outside == s.outside && t.count == s.count && t.freed == s.freed + s.queues[q]
  {
    var frames, n := s.queues[q], |s.ops|;
    if frames == [] {
      Stays(s);
      t := s;
      assert s.queues[q := []] == s.queues;
    } else {
      var u := s.(queues := s.queues[q := []], ops := s.ops + [Unqueued(frames)]);
      TakeLeads(s, q, u);
      t := IndicatedPart(s, u, n, low);
    }
  }

  lemma IndicatedPart(s0: State, s: State, op: nat, low: bool) returns (t: State)
    requires Leads(s0, s) && op < |s.ops| && s.ops[op].Unqueued? && (low ==> s.side == Miniport)
    ensures Leads(s0, t) && SameCapture(s, t) && t.queues == s.queues
    ensures !s.closed && !low ==>
      t.outside == s.outside + multiset(s.ops[op].frames) && t.count == s.count + |s.ops[op].frames| && t.freed == s.freed
    ensures s.closed || low ==> t.outside == s.outside && t.count == s.count && t.freed == s.freed + s.ops[op].frames
  {
    var frames := s.ops[op].frames;
    if s.closed {
      var u := s.(ops := s.ops[op := Dropping(frames)]);
      IndicateLeads(s0, s, op, low, u);
      t := u.(ops := u.ops[op := Done], freed := s.freed + frames);
      DropLeads(s0, u, op, t);
    } else if low {
      t := LowPart(s0, s, op);
    } else {
      t := s.(ops := s.ops[op := Done], count := s.count + |frames|, outside := s.outside + multiset(frames));
      IndicateLeads(s0, s, op, low, t);
    }
  }

  lemma LowPart(s0: State, s: State, op: nat) returns (t: State)
    requires Leads(s0, s) && op < |s.ops| && s.ops[op].Unqueued? && !s.closed && s.side == Miniport
    ensures Leads(s0, t) && t == s.(ops := t.ops, freed := s.freed + s.ops[op].frames)
  {
    var frames := s.ops[op].frames;
    var u := s.(ops := s.ops[op := Lent(frames)], count := s.count + |frames|);
    IndicateLeads(s0, s, op, true, u);
    var v := s.(ops := u.ops[op := Dropping(frames)]);
    LentLeads(s0, u, op, v);
    t := s.(ops := v.ops[op := Done], freed := s.freed + frames);
    DropLeads(s0, v, op, t);
  }

  /** Closing a handle's queue frees what is on it. */
  lemma CloseIsRun(s: State, q: nat) returns (t: State)
    requires q < |s.queues|
    ensures Leads(s, t) && SameCapture(s, t) && t.queues == s.queues[q := []]
    ensures t.outside == s.outside && t.count == s.count && t.freed == s.freed + s.queues[q]
  {
    Stays(s);
    var n := |s.ops|;
    var u := s.(queues := s.queues[q := []], ops := s.ops + [Dropping(s.queues[q])]);
    assert ApplyQueue(s, CloseQueue(q)) == Some(u);
    LeadsOn(s, s, CloseQueue(q), u);
    t := u.(ops := u.ops[n := Done], freed := s.freed + s.queues[q]);
    DropLeads(s, u, n, t);
  }

  /** An injecting handle starts with an empty queue. */
  lemma OpenIsRun(s: State) returns (t: State)
    ensures Leads(s, t) && SameCapture(s, t) && t.queues == s.queues + [[]]
    ensures t.outside == s.outside && t.count == s.count && t.freed == s.freed && t.enqueued == s.enqueued
  {
    Stays(s);
    t := s.(queues := s.queues + [[]]);
    LeadsOn(s, s, OpenQueue, t);
  }

  /** An accepted frame joins the tail of its queue. */
  lemma EnqueueIsRun(s: State, q: nat, frame: nat) returns (t: State)
    requires q < |s.queues| && FreeFrame(s, frame)
    ensures Leads(s, t) && SameCapture(s, t) && t.queues == s.queues[q := s.queues[q] + [frame]]
    ensures t.outside == s.outside && t.count == s.count && t.freed == s.freed && t.enqueued == s.enqueued + [frame]
  {
    Stays(s);
    t := s.(queues := s.queues[q := s.queues[q] + [frame]], enqueued := s.enqueued + [frame]);
    LeadsOn(s, s, Enqueue(q, frame), t);
  }

  /** NDIS gave frames back: they are freed, and so is their protection. */
  predicate Returned(s: State, frames: seq<nat>, t: State) {
    && SameCapture(s, t) && t.queues == s.queues
    && t.outside == s.outside - multiset(frames) && t.count == s.count - |frames| && t.freed == s.freed + frames
  }

  lemma ReturnedOn(s: State, before: seq<nat>, u: State, last: nat, t: State)
    requires multiset(before + [last]) <= s.outside && Returned(s, before, u)
    ensures multiset(before) <= s.outside && multiset([last]) <= u.outside
    ensures Returned(u, [last], t) ==> Returned(s, before + [last], t)
  {
    assert multiset(before + [last]) == multiset(before) + multiset([last]);
    assert s.freed + before + [last] == s.freed + (before + [last]);
  }

  lemma ReturnLeads(s0: State, s: State, frames: seq<nat>) returns (t: State)
    requires Leads(s0, s) && multiset(frames) <= s.outside && (s.side == Lightweight ==> |frames| == 1)
    ensures Leads(s0, t) && Returned(s, frames, t)
  {
    var n := |s.ops|;
    var u := s.(outside := s.outside - multiset(frames), freed := s.freed + frames, ops := s.ops + [Releasing(|frames|)]);
    assert ApplyReturn(s, ReturnFrames(frames)) == Some(u);
    LeadsOn(s0, s, ReturnFrames(frames), u);
    t := u.(ops := u.ops[n := Done], count := s.count - |frames|);
    ReleaseLeads(s0, u, n, t);
  }

  /** When NDIS is done with injected frames they are freed and their protection given back; the lightweight
      filter does this frame by frame. */
  lemma ReturnIsRun(s: State, frames: seq<nat>) returns (t: State)
    requires multiset(frames) <= s.outside
    ensures Leads(s, t) && Returned(s, frames, t)
  {
    Stays(s);
    if s.side == Miniport {
      t := ReturnLeads(s, s, frames);
    } else {
      t := ReturnOneByOne(s, frames);
    }
  }

  lemma {:induction false} ReturnOneByOne(s: State, frames: seq<nat>) returns (t: State)
    requires multiset(frames) <= s.outside
    ensures Leads(s, t) && Returned(s, frames, t)
    decreases |frames|
  {
    if frames == [] {
      Stays(s);
      t := s;
      assert s.freed + frames == s.freed;
    } else {
      var before, last := frames[..|frames| - 1], frames[|frames| - 1];
      assert frames == before + [last];
      MostReturned(s, before, last);
      var u := ReturnOneByOne(s, before);
      ReturnedOn(s, before, u, last, u);
      t := ReturnLeads(s, u, [last]);
      ReturnedOn(s, before, u, last, t);
    }
  }

  lemma MostReturned(s: State, before: seq<nat>, last: nat)
    requires multiset(before + [last]) <= s.outside
    ensures multiset(before) <= s.outside
  {
    assert multiset(before + [last]) == multiset(before) + multiset([last]);
  }

  /** Pause closes the rundown and returns once it has run down; restart opens it again. */
  lemma PauseIsRun(s: State) returns (t: State)
    requires !s.closed && !s.paused && s.count == 0
    ensures Leads(s, t) && t == s.(closed := true, paused := true)
  {
    Stays(s);
    LeadsOn(s, s, PauseBegin, s.(closed := true));
    t := s.(closed := true, paused := true);
    LeadsOn(s, s.(closed := true), PauseEnd, t);
  }

  lemma RestartIsRun(s: State) returns (t: State)
    requires s.paused
    ensures Leads(s, t) && t == s.(closed := false, paused := false)
  {
    Stays(s);
    t := s.(closed := false, paused := false);
    LeadsOn(s, s, Restart, t);
  }

  lemma Started(side: Side) returns (s: State)
    ensures Reachable(side, s) && s == Initial(side).(closed := false, paused := false)
  {
    assert Run(Initial(side), []) == Some(Initial(side));
    s := Initial(side).(closed := false, paused := false);
    Extend(side, Initial(side), Restart, s);
  }

  lemma Single<T>(x: T, y: T)
    ensures [] + [x] == [x] && [x][0 := y] == [y]
  {
  }

  lemma OwnsOne(s: State, id: nat)
    requires Tally(s.submitted, Some(id)) == Tally(s.completed, Some(id))
    ensures OwnedByNdis(s, [id])
  {
    forall k: nat
      ensures Tally([id], Some(k)) == One(id, Some(k))
    {
      TallyOne(id, Some(k));
    }
  }

  lemma SubmitOne(side: Side, s: State, nbl: Nbl, t: State)
    requires Reachable(side, s) && !s.closed && Tally(s.submitted, Some(nbl.id)) == Tally(s.completed, Some(nbl.id))
    requires t == s.(ops := s.ops + [Admitted([nbl])], submitted := s.submitted + [nbl.id], count := s.count + 1)
    ensures Reachable(side, t)
  {
    assert NblIds([nbl]) == [nbl.id];
    OwnsOne(s, nbl.id);
    assert ApplySubmit(s, Submit([nbl], 1)) == Some(t);
    Extend(side, s, Submit([nbl], 1), t);
  }

  lemma SubmitLate(side: Side, s: State, nbl: Nbl, t: State)
    requires Reachable(side, s) && s.closed && Tally(s.submitted, Some(nbl.id)) == Tally(s.completed, Some(nbl.id))
    requires t == s.(ops := s.ops + [Passing([nbl.id])], submitted := s.submitted + [nbl.id])
    ensures Reachable(side, t)
  {
    assert NblIds([nbl]) == [nbl.id];
    OwnsOne(s, nbl.id);
    assert ApplySubmit(s, Submit([nbl], 1)) == Some(t);
    Extend(side, s, Submit([nbl], 1), t);
  }

  lemma NoFilterTakes(a: Arrival)
    ensures ArrivalIds(Joins([], [a], None)) == [a.nbl.id] && After([], [a]) == [] && Nbls([a]) == [a.nbl]
  {
    assert [a][..0] == [];
    assert Joins([], [a], None) == [a];
  }

  /** The lightweight filter gives the protection of uncaptured NBLs back before it indicates them, so
      a pause can finish while they are still on their way up. */
  lemma PauseOvertakesIndication() returns (s: State)
    ensures Reachable(Lightweight, s) && s.paused && s.ops == [Passing([0])] && s.submitted == [0] && s.completed == []
  {
    var s0 := Started(Lightweight);
    var nbl: Nbl := Nbl(0, [[]]);
    var a := Arrival(nbl, Context(0, 0), {});
    var s1 := s0.(ops := [Admitted([nbl])], submitted := [0], count := 1);
    Single(Admitted([nbl]), Uncaptured([0]));
    Single(0 as nat, 0);
    SubmitOne(Lightweight, s0, nbl, s1);
    var s2 := s1.(ops := [Uncaptured([0])]);
    NoFilterTakes(a);
    Extend(Lightweight, s1, Offer(0, [a]), s2);
    var s3 := s2.(ops := [Passing([0])], count := 0);
    Single(Uncaptured([0]), Passing([0]));
    Extend(Lightweight, s2, GiveBack(0), s3);
    s := s3.(closed := true, paused := true);
    PauseNow(s3, s);
  }

  lemma PauseNow(s: State, t: State)
    requires Reachable(Lightweight, s) && !s.closed && !s.paused && s.count == 0 && t == s.(closed := true, paused := true)
    ensures Reachable(Lightweight, t)
  {
    var u := s.(closed := true);
    Extend(Lightweight, s, PauseBegin, u);
    Extend(Lightweight, u, PauseEnd, t);
  }

  /** A send that arrives after the rundown closed is completed without protection, so the miniport's
      pause can finish before it too. */
  lemma PauseOvertakesLateSend() returns (s: State)
    ensures Reachable(Miniport, s) && s.paused && s.ops == [Passing([0])] && s.submitted == [0] && s.completed == []
  {
    var s0 := Started(Miniport);
    var s1 := s0.(closed := true);
    Extend(Miniport, s0, PauseBegin, s1);
    var s2 := s1.(ops := [Passing([0])], submitted := [0]);
    Single(Passing([0]), Passing([0]));
    Single(0 as nat, 0);
    SubmitLate(Miniport, s1, Nbl(0, [[]]), s2);
    s := s2.(paused := true);
    Extend(Miniport, s2, PauseEnd, s);
  }

  lemma OfferOne(s: State, op: nat, a: Arrival, t: State)
    requires Reachable(Miniport, s) && s.side == Miniport && op < |s.ops| && s.ops[op] == Admitted([a.nbl])
    requires Choice(s.filters, a, 0).Some? && t == s.(ops := s.ops[op := Done], filters := AfterOne(s.filters, a))
    ensures Reachable(Miniport, t)
  {
    assert [a][..0] == [] && Nbls([a]) == [a.nbl];
    assert Joins(s.filters, [a], None) == [];
    assert After(s.filters, [a]) == AfterOne(s.filters, a);
    assert ApplyOffer(s, Offer(op, [a])) == Some(t);
    Extend(Miniport, s, Offer(op, [a]), t);
  }

  /** A single NBL that NDIS owns is captured by the first filter that accepts it. */
  lemma Captures(s: State, a: Arrival, j: nat) returns (t: State)
    requires Reachable(Miniport, s) && s.side == Miniport && !s.closed && Choice(s.filters, a, 0) == Some(j)
    requires Tally(s.submitted, Some(a.nbl.id)) == Tally(s.completed, Some(a.nbl.id))
    ensures Reachable(Miniport, t) && t.side == Miniport && !t.closed && t.filters == AfterOne(s.filters, a)
    ensures t.submitted == s.submitted + [a.nbl.id] && t.completed == s.completed
  {
    var u := s.(ops := s.ops + [Admitted([a.nbl])], submitted := s.submitted + [a.nbl.id], count := s.count + 1);
    SubmitOne(Miniport, s, a.nbl, u);
    t := u.(ops := u.ops[|s.ops| := Done], filters := AfterOne(s.filters, a));
    OfferOne(u, |s.ops|, a, t);
  }

  lemma TwoFilters(f: Filter) returns (s: State)
    requires f.queue == [] && f.returned == []
    ensures Reachable(Miniport, s) && s.side == Miniport && !s.closed && s.filters == [Link(0, f), Link(1, f)]
    ensures s.submitted == [] && s.completed == []
  {
    var s0 := Started(Miniport);
    var s1 := s0.(filters := [Link(0, f)]);
    Single(Link(0, f), Link(0, f));
    Extend(Miniport, s0, SetFilter(0, Some(f.params)), s1);
    s := s1.(filters := [Link(0, f), Link(1, f)]);
    assert [Link(0, f)] + [Link(1, f)] == [Link(0, f), Link(1, f)];
    assert Position(s1.filters, 1, 0).None?;
    Extend(Miniport, s1, SetFilter(1, Some(f.params)), s);
  }

  /** Two filters that each hold an NBL for longer than the grace period: a reachable state in which
      the watchdog frees a context twice. */
  lemma WatchdogFreesTwice() returns (s: State, now: Clock)
    ensures Reachable(Miniport, s) && !CleanFree(SweepTo(s.filters, |s.filters|, now).freed)
  {
    var p: Params, n0: Nbl, n1: Nbl := Params([0], [0]), Nbl(0, [[]]), Nbl(1, [[]]);
    var s2 := TwoFilters(Filter(p, [], []));
    var a0, a1 := Arrival(n0, Context(0, 0), {}), Arrival(n1, Context(0, 0), {0});
    assert Matches(p, n0.buffers[0]) && Matches(p, n1.buffers[0]);
    assert Takes(s2.filters, a0, 0);
    var s3 := Captures(s2, a0, 0);
    assert Takes(s3.filters, a1, 1);
    TallyConcat(s2.submitted, [0], Some(1));
    TallyOne(0, Some(1));
    s := Captures(s3, a1, 1);
    now := owner => Readings(GRACE_PERIOD + 1, GRACE_PERIOD + 1);
    BothExpired(s.filters, now);
    WatchdogIsCleanIff(Miniport, s, now);
  }

  lemma BothExpired(links: seq<Link>, now: Clock)
    requires |links| == 2 && forall owner :: now(owner).queue > GRACE_PERIOD
    requires forall i :: 0 <= i < 2 ==> links[i].filter.queue != [] && links[i].filter.queue[0].context == Some(Context(0, 0))
    ensures ExpiredCount(links, |links|, now) == 2
  {
    assert LinkExpired(links[0], now) && LinkExpired(links[1], now);
    assert ExpiredCount(links, 1, now) == 1;
  }
}
