/** Every interleaving of OID requests, the exclusive handle's IOCTLs, the watchdog and the handle's
    close. A step is what runs under the adapter's lock, or one completion outside it. */
module OidProtocol {
  import opened Bytes
  import opened Tallies
  import opened Oids

  datatype Completion = Completion(id: nat, status: Status)

  /** The exclusive user context. */
  datatype User = User(setFilter: bool, closing: bool)

  /** What a thread still has to do with requests that it took off the lists. */
  datatype Op =
    | Finishing(request: Request, status: Status, take: nat) // one request, by the complete IOCTL
    | MustFlush                                              // the watchdog found an expired request
    | Flushing(lists: seq<seq<Entry>>, closing: bool)        // requests spliced off the lists
    | Idle

  /** A request that a complete IOCTL took off its list, and the status that the IOCTL named. */
  datatype Taken = Taken(request: Request, status: Status)

  /** Why a request was completed: a complete IOCTL took it, or a flush did. code is what processing it
      without the filter returned, or would have. */
  datatype Cause = ByTake(take: nat, code: nat) | ByFlush(request: Request, code: nat)

  /** returned logs what the request handlers answered, pended the requests that joined a list, takes what
      the complete IOCTLs took, done the completions and causes why each was made; arrived and removed log,
      per interface, the order in which requests joined and left the lists. */
  datatype State = State(
    filter: Filter, user: Option<User>, ops: seq<Op>,
    returned: seq<Completion>, pended: seq<nat>, takes: seq<Taken>, done: seq<Completion>, causes: seq<Cause>,
    arrived: seq<seq<nat>>, removed: seq<seq<nat>>)

  datatype Event =
    | Arrive(interface: nat, request: Request, now: nat, memory: bool, code: nat)
    | SetFilter(version: nat, input: Input, count: nat)
    | Take(key: Key, status: Status, infoLength: nat, readable: bool)
    | Finish(op: nat, code: nat)
    | FlushNext(op: nat, code: nat)
    | FlushDone(op: nat)
    | WatchdogCheck(now: nat)
    | WatchdogFlush(op: nat)
    | Open
    | CloseBegin
    | CloseEnd

  function DoneIds(done: seq<Completion>): seq<nat> {
    seq(|done|, i requires 0 <= i < |done| => done[i].id)
  }

  function EntryIds(list: seq<Entry>): seq<nat> {
    seq(|list|, i requires 0 <= i < |list| => list[i].request.id)
  }

  // ---- Steps ----------------------------------------------------------------------------------

  predicate HandledKind(r: Request) {
    r.kind == QUERY || r.kind == STATISTICS || r.kind == SET || r.kind == METHOD
  }

  /** NDIS_STATUS_NOT_SUPPORTED. */
  const NOT_SUPPORTED: nat := 0xC000_00BB

  /** The dispatch on the request type and the process routine behind it. filtered says that the routine was
      asked to consult the filter and a key matches; code is what the rest of the routine returns. */
  function Process(r: Request, filtered: bool, memory: bool, code: nat): Status {
    if !HandledKind(r) then Final(NOT_SUPPORTED)
    else if filtered then if memory then Pending else Final(RESOURCES)
    else Final(code)
  }

  /** What an OID request handler answers. */
  function Answer(s: State, e: Event): Status
    requires e.Arrive?
  {
    Process(e.request, Filtered(s.filter, e.interface, e.request), e.memory, e.code)
  }

  /** The filter links the request as it is consulted. */
  predicate Pends(s: State, e: Event)
    requires e.Arrive?
  {
    HandledKind(e.request) && Filtered(s.filter, e.interface, e.request) && e.memory
  }

  function ApplyArrive(s: State, e: Event): Option<State>
    requires e.Arrive? && Shape(s)
  {
    var id := e.request.id;
    var logged := s.(returned := s.returned + [Completion(id, Answer(s, e))]);
    if e.interface >= INTERFACES || Tally(s.pended, Some(id)) != Tally(DoneIds(s.done), Some(id)) then None
    else if Pends(s, e) then
      Some(logged.(filter := Pend(s.filter, e.interface, Entry(e.request, e.now)),
                   pended := s.pended + [id],
                   arrived := s.arrived[e.interface := s.arrived[e.interface] + [id]]))
    else Some(logged)
  }

  predicate Live(s: State) {
    s.user.Some? && !s.user.value.closing
  }

  function ApplyIoctl(s: State, e: Event): Option<State>
    requires (e.SetFilter? || e.Take?) && Shape(s)
  {
    if !Live(s) then None
    else match e
      case SetFilter(version, input, n) =>
        if HasKeys(version, input, n) && AllAdmissible(Keys(version, input, n)) && s.filter.keys.None? then
          Some(s.(filter := s.filter.(keys := Some(Keys(version, input, n))), user := Some(User(true, false))))
        else Some(s)
      case Take(k, status, infoLength, readable) =>
        if TakeOutcome(s.filter, k, status, infoLength, readable) == Success then
          var r := s.filter.lists[k.interface][0].request;
          Some(s.(filter := Remove(s.filter, k.interface), ops := s.ops + [Finishing(r, status, |s.takes|)],
                  takes := s.takes + [Taken(r, status)],
                  removed := s.removed[k.interface := s.removed[k.interface] + [r.id]]))
        else Some(s)
  }

  /** MpOidCompleteRequest: PENDING asks for regular processing, which now leaves the filter out. */
  function Settled(r: Request, status: Status, code: nat): Status {
    if status == Pending then Process(r, false, true, code) else status
  }

  /** A request is completed towards NDIS. */
  function Complete(s: State, r: Request, status: Status, code: nat, cause: Cause): State {
    s.(done := s.done + [Completion(r.id, Settled(r, status, code))], causes := s.causes + [cause])
  }

  function ApplyComplete(s: State, e: Event): Option<State>
    requires e.Finish? || e.FlushNext? || e.FlushDone?
  {
    if e.op >= |s.ops| then None
    else
      var x := s.ops[e.op];
      match e
      case Finish(op, code) =>
        if x.Finishing? then
          Some(Complete(s, x.request, x.status, code, ByTake(x.take, code)).(ops := s.ops[op := Idle]))
        else None
      case FlushNext(op, code) =>
        if !x.Flushing? || |x.lists| != INTERFACES then None
        else if x.lists[0] != [] then
          var r := x.lists[0][0].request;
          Some(Complete(s, r, Pending, code, ByFlush(r, code)).(ops := s.ops[op := x.(lists := x.lists[0 := x.lists[0][1..]])]))
        else if x.lists[1] != [] then
          var r := x.lists[1][0].request;
          Some(Complete(s, r, Pending, code, ByFlush(r, code)).(ops := s.ops[op := x.(lists := x.lists[1 := x.lists[1][1..]])]))
        else None
      case FlushDone(op) =>
        if x.Flushing? && x.lists == [[], []] then Some(s.(ops := s.ops[op := Idle])) else None
  }

  /** The locked part of a flush: the keys go, and the lists are spliced off. */
  function Splice(s: State): State
    requires Shape(s)
  {
    s.(filter := Emptied(s.filter),
       removed := [s.removed[0] + EntryIds(s.filter.lists[0]), s.removed[1] + EntryIds(s.filter.lists[1])])
  }

  function ApplyWatchdog(s: State, e: Event): Option<State>
    requires (e.WatchdogCheck? || e.WatchdogFlush?) && Shape(s)
  {
    match e
    case WatchdogCheck(now) =>
      if Expired(s.filter.lists[0], now) || Expired(s.filter.lists[1], now) then Some(s.(ops := s.ops + [MustFlush])) else Some(s)
    case WatchdogFlush(op) =>
      if op < |s.ops| && s.ops[op].MustFlush? then
        Some(Splice(s).(ops := s.ops[op := Flushing(s.filter.lists, false)]))
      else None
  }

  predicate ClosingFlush(s: State) {
    exists i :: 0 <= i < |s.ops| && s.ops[i].Flushing? && s.ops[i].closing
  }

  function ApplyHandle(s: State, e: Event): Option<State>
    requires (e.Open? || e.CloseBegin? || e.CloseEnd?) && Shape(s)
  {
    match e
    case Open => if s.user.None? then Some(s.(user := Some(User(false, false)))) else Some(s)
    case CloseBegin =>
      if !Live(s) then None
      else
        var closing := s.(user := Some(s.user.value.(closing := true)));
        if s.user.value.setFilter then Some(Splice(closing).(ops := s.ops + [Flushing(s.filter.lists, true)]))
        else Some(closing)
    case CloseEnd =>
      if s.user.Some? && s.user.value.closing && !ClosingFlush(s) then Some(s.(user := None)) else None
  }

  function Apply(s: State, e: Event): Option<State>
    requires Shape(s)
  {
    match e
    case Arrive(_, _, _, _, _) => ApplyArrive(s, e)
    case SetFilter(_, _, _) => ApplyIoctl(s, e)
    case Take(_, _, _, _) => ApplyIoctl(s, e)
    case Finish(_, _) => ApplyComplete(s, e)
    case FlushNext(_, _) => ApplyComplete(s, e)
    case FlushDone(_) => ApplyComplete(s, e)
    case WatchdogCheck(_) => ApplyWatchdog(s, e)
    case WatchdogFlush(_) => ApplyWatchdog(s, e)
    case Open => ApplyHandle(s, e)
    case CloseBegin => ApplyHandle(s, e)
    case CloseEnd => ApplyHandle(s, e)
  }

  predicate Shape(s: State) {
    ShapeOk(s.filter) && |s.arrived| == INTERFACES && |s.removed| == INTERFACES
  }

  const INITIAL: State := State(Filter(None, [[], []]), None, [], [], [], [], [], [], [[], []], [[], []])

  lemma StepKeepsShape(s: State, e: Event)
    requires Shape(s)
    ensures Apply(s, e).Some? ==> Shape(Apply(s, e).value)
  {
  }

  ghost function Run(s: State, events: seq<Event>): (r: Option<State>)
    requires Shape(s)
    ensures r.Some? ==> Shape(r.value)
  {
    if events == [] then Some(s)
    else
      var t := Run(s, events[..|events| - 1]);
      if t.None? then None
      else
        StepKeepsShape(t.value, events[|events| - 1]);
        Apply(t.value, events[|events| - 1])
  }

  ghost predicate Reachable(s: State) {
    exists events :: Run(INITIAL, events) == Some(s)
  }

  // ---- Runs -----------------------------------------------------------------------------------

  ghost predicate Leads(s: State, t: State)
    requires Shape(s)
  {
    exists events :: Run(s, events) == Some(t)
  }

  lemma Stays(s: State)
    requires Shape(s)
    ensures Leads(s, s)
  {
    assert Run(s, []) == Some(s);
  }

  lemma LeadsOn(s: State, t: State, e: Event, u: State)
    requires Shape(s) && Leads(s, t) && Shape(t) && Apply(t, e) == Some(u)
    ensures Leads(s, u)
  {
    var events :| Run(s, events) == Some(t);
    assert (events + [e])[..|events|] == events;
    assert Run(s, events + [e]) == Some(u);
  }

  lemma OneStep(s: State, e: Event, t: State)
    requires Shape(s) && Apply(s, e) == Some(t)
    ensures Leads(s, t)
  {
    Stays(s);
    LeadsOn(s, s, e, t);
  }

  lemma {:induction false} LeadsTwice(s: State, t: State, events: seq<Event>, u: State)
    requires Shape(s) && Leads(s, t) && Shape(t) && Run(t, events) == Some(u)
    ensures Leads(s, u)
    decreases |events|
  {
    if events != [] {
      var before := events[..|events| - 1];
      LeadsTwice(s, t, before, Run(t, before).value);
      LeadsOn(s, Run(t, before).value, events[|events| - 1], u);
    }
  }

  lemma LeadsThrough(s: State, t: State, u: State)
    requires Shape(s) && Leads(s, t) && Shape(t) && Leads(t, u)
    ensures Leads(s, u)
  {
    var events :| Run(t, events) == Some(u);
    LeadsTwice(s, t, events, u);
  }

  // ---- The invariant --------------------------------------------------------------------------

  function ListsTally(lists: seq<seq<Entry>>, key: Option<nat>): nat
    requires |lists| == INTERFACES
  {
    Tally(EntryIds(lists[0]), key) + Tally(EntryIds(lists[1]), key)
  }

  function Weight(x: Op, key: Option<nat>): nat {
    match x
    case Finishing(r, _, _) => One(r.id, key)
    case Flushing(lists, _) => if |lists| == INTERFACES then ListsTally(lists, key) else 0
    case _ => 0
  }

  function Sum(ops: seq<Op>, key: Option<nat>): nat {
    if ops == [] then 0 else Sum(ops[..|ops| - 1], key) + Weight(ops[|ops| - 1], key)
  }

  lemma {:induction false} SumUpdate(ops: seq<Op>, i: nat, x: Op, key: Option<nat>)
    requires i < |ops|
    ensures Sum(ops[i := x], key) + Weight(ops[i], key) == Sum(ops, key) + Weight(x, key)
    decreases |ops|
  {
    var last := |ops| - 1;
    if i < last {
      SumUpdate(ops[..last], i, x, key);
      assert ops[i := x][..last] == ops[..last][i := x];
    } else {
      assert ops[i := x][..last] == ops[..last];
    }
  }

  lemma SumAppend(ops: seq<Op>, x: Op, key: Option<nat>)
    ensures Sum(ops + [x], key) == Sum(ops, key) + Weight(x, key)
  {
    assert (ops + [x])[..|ops|] == ops;
  }

  /** Every request whose handler returned PENDING is on a list, with one operation, or completed. */
  predicate Balanced(s: State, key: Option<nat>)
    requires Shape(s)
  {
    Tally(s.pended, key) == ListsTally(s.filter.lists, key) + Sum(s.ops, key) + Tally(DoneIds(s.done), key)
  }

  predicate AtMostOnce(s: State, id: nat) {
    Tally(s.pended, Some(id)) <= Tally(DoneIds(s.done), Some(id)) + 1
  }

  /** Requests leave each list in the order in which they joined it. */
  predicate InOrder(s: State, i: nat)
    requires Shape(s) && i < INTERFACES
  {
    s.arrived[i] == s.removed[i] + EntryIds(s.filter.lists[i])
  }

  /** Whatever is on a list matches one of the keys. */
  predicate ListMatches(s: State, i: nat)
    requires Shape(s) && i < INTERFACES
  {
    forall k :: 0 <= k < |s.filter.lists[i]| ==> Filtered(s.filter, i, s.filter.lists[i][k].request)
  }

  predicate KeysSound(s: State) {
    s.filter.keys.Some? ==> AllAdmissible(s.filter.keys.value) && Live(s) && s.user.value.setFilter
  }

  predicate NeverPending(done: seq<Completion>) {
    forall i :: 0 <= i < |done| ==> done[i].status != Pending
  }

  predicate OpsSound(ops: seq<Op>) {
    forall i :: 0 <= i < |ops| && ops[i].Flushing? ==> |ops[i].lists| == INTERFACES
  }

  /** Only a handle that is closing has a flush of its own under way. */
  predicate ClosingSound(s: State) {
    ClosingFlush(s) ==> s.user.Some? && s.user.value.closing
  }

  ghost predicate Inv(s: State) {
    && Shape(s)
    && (forall key :: Balanced(s, key))
    && (forall id :: AtMostOnce(s, id))
    && InOrder(s, 0) && InOrder(s, 1)
    && ListMatches(s, 0) && ListMatches(s, 1)
    && KeysSound(s)
    && NeverPending(s.done)
    && OpsSound(s.ops)
    && ClosingSound(s)
  }

  // ---- Counting -------------------------------------------------------------------------------

  lemma IdsExtend(list: seq<Entry>, x: Entry, key: Option<nat>)
    ensures EntryIds(list + [x]) == EntryIds(list) + [x.request.id]
    ensures Tally(EntryIds(list + [x]), key) == Tally(EntryIds(list), key) + One(x.request.id, key)
  {
    TallyConcat(EntryIds(list), [x.request.id], key);
    TallyOne(x.request.id, key);
  }

  lemma IdsDrop(list: seq<Entry>, key: Option<nat>)
    requires list != []
    ensures EntryIds(list) == [list[0].request.id] + EntryIds(list[1..])
    ensures Tally(EntryIds(list), key) == One(list[0].request.id, key) + Tally(EntryIds(list[1..]), key)
  {
    TallyConcat([list[0].request.id], EntryIds(list[1..]), key);
    TallyOne(list[0].request.id, key);
  }

  lemma DoneExtends(done: seq<Completion>, c: Completion, key: Option<nat>)
    ensures Tally(DoneIds(done + [c]), key) == Tally(DoneIds(done), key) + One(c.id, key)
  {
    assert DoneIds(done + [c]) == DoneIds(done) + [c.id];
    TallyConcat(DoneIds(done), [c.id], key);
    TallyOne(c.id, key);
  }

  // ---- Arrival --------------------------------------------------------------------------------

  lemma ArriveBalanced(s: State, e: Event, t: State, key: Option<nat>)
    requires Shape(s) && e.Arrive? && ApplyArrive(s, e) == Some(t) && Balanced(s, key)
    ensures Balanced(t, key)
  {
    if Pends(s, e) {
      PendTally(s.filter, e.interface, Entry(e.request, e.now), key);
      TallyConcat(s.pended, [e.request.id], key);
      TallyOne(e.request.id, key);
    }
  }

  lemma PendTally(f: Filter, i: nat, x: Entry, key: Option<nat>)
    requires ShapeOk(f) && i < INTERFACES
    ensures ListsTally(Pend(f, i, x).lists, key) == ListsTally(f.lists, key) + One(x.request.id, key)
  {
    IdsExtend(f.lists[i], x, key);
    if i == 0 {
      assert Pend(f, i, x).lists[1] == f.lists[1];
    } else {
      assert Pend(f, i, x).lists[0] == f.lists[0];
    }
  }

  lemma ArriveOnce(s: State, e: Event, t: State, id: nat)
    requires Shape(s) && e.Arrive? && ApplyArrive(s, e) == Some(t) && AtMostOnce(s, id)
    ensures AtMostOnce(t, id)
  {
    TallyConcat(s.pended, [e.request.id], Some(id));
    TallyOne(e.request.id, Some(id));
  }

  lemma ArriveKeepsInv(s: State, e: Event, t: State)
    requires Inv(s) && e.Arrive? && ApplyArrive(s, e) == Some(t)
    ensures Inv(t)
  {
    forall key ensures Balanced(t, key) { ArriveBalanced(s, e, t, key); }
    forall id ensures AtMostOnce(t, id) { ArriveOnce(s, e, t, id); }
    if Pends(s, e) {
      var list := s.filter.lists[e.interface];
      IdsExtend(list, Entry(e.request, e.now), None);
      assert s.removed[e.interface] + (EntryIds(list) + [e.request.id]) == (s.removed[e.interface] + EntryIds(list)) + [e.request.id];
    }
  }

  // ---- IOCTLs ---------------------------------------------------------------------------------

  lemma TakeBalanced(s: State, e: Event, t: State, key: Option<nat>)
    requires Shape(s) && e.Take? && ApplyIoctl(s, e) == Some(t) && Balanced(s, key)
    ensures Balanced(t, key)
  {
    if t != s {
      IdsDrop(s.filter.lists[e.key.interface], key);
      SumAppend(s.ops, t.ops[|s.ops|], key);
    }
  }

  lemma TakeInOrder(s: State, e: Event, t: State, i: nat)
    requires Shape(s) && e.Take? && ApplyIoctl(s, e) == Some(t) && t != s && i < INTERFACES && InOrder(s, i) && ListMatches(s, i)
    ensures InOrder(t, i) && ListMatches(t, i)
  {
    if i == e.key.interface {
      IdsDrop(s.filter.lists[i], None);
      var r := s.filter.lists[i][0].request.id;
      assert s.removed[i] + ([r] + EntryIds(s.filter.lists[i][1..])) == (s.removed[i] + [r]) + EntryIds(s.filter.lists[i][1..]);
    }
  }

  lemma TakeKeepsInv(s: State, e: Event, t: State)
    requires Inv(s) && e.Take? && ApplyIoctl(s, e) == Some(t)
    ensures Inv(t)
  {
    if t != s {
      forall key ensures Balanced(t, key) { TakeBalanced(s, e, t, key); }
      forall id ensures AtMostOnce(t, id) { assert AtMostOnce(s, id); }
      TakeInOrder(s, e, t, 0);
      TakeInOrder(s, e, t, 1);
    }
  }

  lemma SetFilterKeepsInv(s: State, e: Event, t: State)
    requires Inv(s) && e.SetFilter? && ApplyIoctl(s, e) == Some(t)
    ensures Inv(t)
  {
    if t != s {
      forall key ensures Balanced(t, key) { assert Balanced(s, key); }
      forall id ensures AtMostOnce(t, id) { assert AtMostOnce(s, id); }
      assert s.filter.lists[0] == [] && s.filter.lists[1] == [] by {
        Unfiltered(s, 0);
        Unfiltered(s, 1);
      }
    }
  }

  /** With no keys nothing is pended. */
  lemma Unfiltered(s: State, i: nat)
    requires Shape(s) && i < INTERFACES && ListMatches(s, i) && s.filter.keys.None?
    ensures s.filter.lists[i] == []
  {
    assert s.filter.lists[i] != [] ==> Filtered(s.filter, i, s.filter.lists[i][0].request);
  }

  // ---- Completion -----------------------------------------------------------------------------

  lemma CompleteBalanced(s: State, e: Event, t: State, key: Option<nat>)
    requires Shape(s) && (e.Finish? || e.FlushNext? || e.FlushDone?) && ApplyComplete(s, e) == Some(t) && Balanced(s, key)
    ensures Balanced(t, key)
  {
    SumUpdate(s.ops, e.op, t.ops[e.op], key);
    if !e.FlushDone? {
      DoneExtends(s.done, t.done[|s.done|], key);
    }
    if e.FlushNext? {
      var lists := s.ops[e.op].lists;
      IdsDrop(if lists[0] != [] then lists[0] else lists[1], key);
    }
  }

  lemma CompleteOnce(s: State, e: Event, t: State, id: nat)
    requires Shape(s) && (e.Finish? || e.FlushNext? || e.FlushDone?) && ApplyComplete(s, e) == Some(t) && AtMostOnce(s, id)
    ensures AtMostOnce(t, id)
  {
    if !e.FlushDone? {
      DoneExtends(s.done, t.done[|s.done|], Some(id));
    }
  }

  lemma CompleteKeepsInv(s: State, e: Event, t: State)
    requires Inv(s) && (e.Finish? || e.FlushNext? || e.FlushDone?) && ApplyComplete(s, e) == Some(t)
    ensures Inv(t)
  {
    forall key ensures Balanced(t, key) { CompleteBalanced(s, e, t, key); }
    forall id ensures AtMostOnce(t, id) { CompleteOnce(s, e, t, id); }
  }

  // ---- Flushing -------------------------------------------------------------------------------

  lemma SpliceInOrder(s: State)
    requires Shape(s) && InOrder(s, 0) && InOrder(s, 1)
    ensures var t := Splice(s); Shape(t) && InOrder(t, 0) && InOrder(t, 1) && ListMatches(t, 0) && ListMatches(t, 1)
    ensures forall key :: ListsTally(Splice(s).filter.lists, key) == 0
  {
    assert EntryIds([]) == [];
    assert forall i :: 0 <= i < INTERFACES ==> s.arrived[i] + [] == s.arrived[i];
  }

  lemma WatchdogBalanced(s: State, e: Event, t: State, key: Option<nat>)
    requires Shape(s) && (e.WatchdogCheck? || e.WatchdogFlush?) && ApplyWatchdog(s, e) == Some(t) && Balanced(s, key)
    ensures Shape(t) && Balanced(t, key)
  {
    if e.WatchdogFlush? {
      SumUpdate(s.ops, e.op, t.ops[e.op], key);
      assert EntryIds([]) == [];
    } else if t != s {
      SumAppend(s.ops, MustFlush, key);
    }
  }

  lemma WatchdogKeepsInv(s: State, e: Event, t: State)
    requires Inv(s) && (e.WatchdogCheck? || e.WatchdogFlush?) && ApplyWatchdog(s, e) == Some(t)
    ensures Inv(t)
  {
    forall key ensures Shape(t) && Balanced(t, key) { WatchdogBalanced(s, e, t, key); }
    forall id ensures AtMostOnce(t, id) { assert AtMostOnce(s, id); }
    if e.WatchdogFlush? {
      SpliceInOrder(s);
    }
  }

  lemma HandleBalanced(s: State, e: Event, t: State, key: Option<nat>)
    requires Shape(s) && (e.Open? || e.CloseBegin? || e.CloseEnd?) && ApplyHandle(s, e) == Some(t) && Balanced(s, key)
    ensures Shape(t) && Balanced(t, key)
  {
    if e.CloseBegin? && s.user.value.setFilter {
      SumAppend(s.ops, t.ops[|s.ops|], key);
      assert EntryIds([]) == [];
    }
  }

  lemma HandleKeepsInv(s: State, e: Event, t: State)
    requires Inv(s) && (e.Open? || e.CloseBegin? || e.CloseEnd?) && ApplyHandle(s, e) == Some(t)
    ensures Inv(t)
  {
    forall key ensures Shape(t) && Balanced(t, key) { HandleBalanced(s, e, t, key); }
    forall id ensures AtMostOnce(t, id) { assert AtMostOnce(s, id); }
    if e.CloseBegin? {
      SpliceInOrder(s);
    }
  }

  lemma StepKeepsInv(s: State, e: Event, t: State)
    requires Inv(s) && Apply(s, e) == Some(t)
    ensures Inv(t)
  {
    match e
    case Arrive(_, _, _, _, _) => ArriveKeepsInv(s, e, t);
    case SetFilter(_, _, _) => SetFilterKeepsInv(s, e, t);
    case Take(_, _, _, _) => TakeKeepsInv(s, e, t);
    case Finish(_, _) => CompleteKeepsInv(s, e, t);
    case FlushNext(_, _) => CompleteKeepsInv(s, e, t);
    case FlushDone(_) => CompleteKeepsInv(s, e, t);
    case WatchdogCheck(_) => WatchdogKeepsInv(s, e, t);
    case WatchdogFlush(_) => WatchdogKeepsInv(s, e, t);
    case Open => HandleKeepsInv(s, e, t);
    case CloseBegin => HandleKeepsInv(s, e, t);
    case CloseEnd => HandleKeepsInv(s, e, t);
  }

  lemma {:induction false} RunKeepsInv(s: State, events: seq<Event>, t: State)
    requires Inv(s) && Run(s, events) == Some(t)
    ensures Inv(t)
    decreases |events|
  {
    if events != [] {
      var before := events[..|events| - 1];
      RunKeepsInv(s, before, Run(s, before).value);
      StepKeepsInv(Run(s, before).value, events[|events| - 1], t);
    }
  }

  lemma ReachableInv(s: State)
    requires Reachable(s)
    ensures Inv(s)
  {
    var events :| Run(INITIAL, events) == Some(s);
    assert EntryIds([]) == [] && DoneIds([]) == [];
    assert Inv(INITIAL);
    RunKeepsInv(INITIAL, events, s);
  }

  // ---- What holds in every reachable state ----------------------------------------------------

  /** A pended request is completed exactly once: until then it is in exactly one place. */
  lemma CompletedOnce(s: State, id: nat)
    requires Reachable(s)
    ensures Shape(s)
    ensures var owed := Tally(s.pended, Some(id)) - Tally(DoneIds(s.done), Some(id));
      0 <= owed <= 1 && ListsTally(s.filter.lists, Some(id)) + Sum(s.ops, Some(id)) == owed
  {
    ReachableInv(s);
    assert Balanced(s, Some(id)) && AtMostOnce(s, id);
  }

  /** No completion ever carries PENDING. */
  lemma CompletionsAreFinal(s: State, i: nat)
    requires Reachable(s) && i < |s.done|
    ensures s.done[i].status != Pending
  {
    ReachableInv(s);
  }

  /** Per interface, requests leave the list in the order in which they arrived. */
  lemma FirstInFirstOut(s: State, i: nat)
    requires Reachable(s) && i < INTERFACES
    ensures Shape(s) && s.removed[i] <= s.arrived[i] && s.arrived[i][|s.removed[i]|..] == EntryIds(s.filter.lists[i])
  {
    ReachableInv(s);
    assert InOrder(s, i);
  }

  /** Requests are pended only while a filter is set, by the one handle that set it, and each matches a
      key; so only query, set and method requests are ever on a list, whichever API version set the
      keys. */
  lemma PendedMatches(s: State, i: nat, k: nat)
    requires Reachable(s) && i < INTERFACES && |s.filter.lists| == INTERFACES && k < |s.filter.lists[i]|
    ensures Live(s) && s.user.value.setFilter && Filtered(s.filter, i, s.filter.lists[i][k].request)
    ensures KindAllowed(s.filter.lists[i][k].request)
  {
    ReachableInv(s);
    assert ListMatches(s, i);
    var r := s.filter.lists[i][k].request;
    var j :| 0 <= j < |s.filter.keys.value| && Matches(s.filter.keys.value[j], i, r);
    assert Admissible(s.filter.keys.value[j]);
  }

  /** Once the exclusive handle is closed no request is pended and no key is left. */
  lemma NothingPendedWhenClosed(s: State)
    requires Reachable(s) && !Live(s)
    ensures s.filter == Filter(None, [[], []])
  {
    ReachableInv(s);
    Unfiltered(s, 0);
    Unfiltered(s, 1);
    assert s.filter.lists == [[], []];
  }

  /** When the adapter is free for another handle, the flush of the last one is over. */
  lemma ClosedMeansFlushed(s: State, i: nat)
    requires Reachable(s) && s.user.None? && i < |s.ops|
    ensures s.ops[i].Flushing? ==> !s.ops[i].closing
  {
    ReachableInv(s);
    assert !ClosingFlush(s);
  }

  // ---- Answers --------------------------------------------------------------------------------

  /** The requests whose handler answered PENDING. */
  function PendingIds(returned: seq<Completion>): seq<nat> {
    if returned == [] then []
    else
      var last := returned[|returned| - 1];
      PendingIds(returned[..|returned| - 1]) + if last.status == Pending then [last.id] else []
  }

  /** The requests that their handler finished at once. */
  function InlineIds(returned: seq<Completion>): seq<nat> {
    if returned == [] then []
    else
      var last := returned[|returned| - 1];
      InlineIds(returned[..|returned| - 1]) + if last.status == Pending then [] else [last.id]
  }

  lemma AnswerTallies(before: seq<Completion>, last: Completion, key: Option<nat>)
    ensures var logged := before + [last];
      && Tally(PendingIds(logged), key) == Tally(PendingIds(before), key) + (if last.status == Pending then One(last.id, key) else 0)
      && Tally(InlineIds(logged), key) == Tally(InlineIds(before), key) + (if last.status == Pending then 0 else One(last.id, key))
  {
    assert (before + [last])[..|before|] == before;
    TallyOne(last.id, key);
    if last.status == Pending {
      TallyConcat(PendingIds(before), [last.id], key);
      assert InlineIds(before) + [] == InlineIds(before);
    } else {
      TallyConcat(InlineIds(before), [last.id], key);
      assert PendingIds(before) + [] == PendingIds(before);
    }
  }

  /** Every arrival was answered PENDING or finished at once. */
  predicate Splits(returned: seq<Completion>, key: Option<nat>) {
    Tally(DoneIds(returned), key) == Tally(PendingIds(returned), key) + Tally(InlineIds(returned), key)
  }

  lemma SplitsOn(before: seq<Completion>, last: Completion, key: Option<nat>)
    requires Splits(before, key)
    ensures Splits(before + [last], key)
  {
    AnswerTallies(before, last, key);
    DoneExtends(before, last, key);
  }

  /** The log of answers agrees with the log of the lists. */
  predicate Logged(s: State, key: Option<nat>) {
    PendingIds(s.returned) == s.pended && Splits(s.returned, key)
  }

  lemma AnswerLogged(s: State, e: Event, t: State, key: Option<nat>)
    requires Shape(s) && Apply(s, e) == Some(t) && Logged(s, key)
    ensures Logged(t, key)
  {
    if e.Arrive? {
      var last := Completion(e.request.id, Answer(s, e));
      SplitsOn(s.returned, last, key);
      assert (s.returned + [last])[..|s.returned|] == s.returned;
    } else {
      SameAnswers(s, e, t);
    }
  }

  lemma SameAnswers(s: State, e: Event, t: State)
    requires Shape(s) && Apply(s, e) == Some(t) && !e.Arrive?
    ensures t.returned == s.returned && t.pended == s.pended
  {
  }

  lemma {:induction false} AnswersLogged(events: seq<Event>, s: State, key: Option<nat>)
    requires Run(INITIAL, events) == Some(s)
    ensures Logged(s, key)
    decreases |events|
  {
    if events == [] {
      assert DoneIds([]) == [];
    } else {
      var before := events[..|events| - 1];
      AnswersLogged(before, Run(INITIAL, before).value, key);
      AnswerLogged(Run(INITIAL, before).value, events[|events| - 1], s, key);
    }
  }

  /** A handler answers PENDING exactly when it links the request, and only for a kind that the completion
      IOCTL knows. */
  lemma AnswerPends(s: State, e: Event, t: State)
    requires Reachable(s) && Shape(s) && e.Arrive? && ApplyArrive(s, e) == Some(t)
    ensures Answer(s, e) == Pending <==> |t.filter.lists[e.interface]| == |s.filter.lists[e.interface]| + 1
    ensures Answer(s, e) == Pending ==> KindAllowed(e.request)
  {
    if Pends(s, e) {
      ReachableInv(s);
      var j :| 0 <= j < |s.filter.keys.value| && Matches(s.filter.keys.value[j], e.interface, e.request);
      assert Admissible(s.filter.keys.value[j]);
    }
  }

  /** Whenever a handler answered PENDING its request is on a list, with one operation, or completed, and
      every other answer is the end of the request: so each arrival of a request is finished by its handler
      or by one completion, never by both, and at most one arrival is unfinished. */
  lemma PendingMeansListed(s: State, id: nat)
    requires Reachable(s)
    ensures Shape(s)
    ensures Tally(PendingIds(s.returned), Some(id))
         == ListsTally(s.filter.lists, Some(id)) + Sum(s.ops, Some(id)) + Tally(DoneIds(s.done), Some(id))
    ensures var arrivals, finished := Tally(DoneIds(s.returned), Some(id)), Tally(InlineIds(s.returned), Some(id)) + Tally(DoneIds(s.done), Some(id));
      && finished <= arrivals <= finished + 1
      && arrivals - finished == ListsTally(s.filter.lists, Some(id)) + Sum(s.ops, Some(id))
  {
    var events :| Run(INITIAL, events) == Some(s);
    AnswersLogged(events, s, Some(id));
    CompletedOnce(s, id);
    ReachableInv(s);
    assert Balanced(s, Some(id));
  }

  // ---- With which status a request is completed -----------------------------------------------

  predicate AllowedKinds(list: seq<Entry>) {
    forall k :: 0 <= k < |list| ==> KindAllowed(list[k].request)
  }

  /** What a thread still has to complete was taken as the log says, and is of a kind that keys can name. */
  predicate OpTraced(takes: seq<Taken>, x: Op) {
    match x
    case Finishing(r, status, k) => k < |takes| && takes[k] == Taken(r, status) && KindAllowed(r)
    case Flushing(lists, _) => |lists| == INTERFACES && AllowedKinds(lists[0]) && AllowedKinds(lists[1])
    case _ => true
  }

  /** The final status that a complete IOCTL names is the one that NDIS gets; one that names PENDING, and
      every flush, gives what processing without the filter returned. */
  predicate Says(takes: seq<Taken>, cause: Cause, done: Completion) {
    match cause
    case ByTake(k, code) =>
      && k < |takes| && done.id == takes[k].request.id
      && done.status == if takes[k].status.Final? then takes[k].status else Final(code)
    case ByFlush(r, code) => done == Completion(r.id, Final(code))
  }

  ghost predicate Traced(s: State) {
    && |s.causes| == |s.done|
    && (forall i :: 0 <= i < |s.done| ==> Says(s.takes, s.causes[i], s.done[i]))
    && (forall i :: 0 <= i < |s.ops| ==> OpTraced(s.takes, s.ops[i]))
  }

  /** Whatever is on a list is of a kind that keys can name. */
  lemma ListedKinds(s: State, i: nat)
    requires Shape(s) && KeysSound(s) && i < INTERFACES && ListMatches(s, i)
    ensures AllowedKinds(s.filter.lists[i])
  {
    forall k | 0 <= k < |s.filter.lists[i]| ensures KindAllowed(s.filter.lists[i][k].request) {
      assert Filtered(s.filter, i, s.filter.lists[i][k].request);
      var j :| 0 <= j < |s.filter.keys.value| && Matches(s.filter.keys.value[j], i, s.filter.lists[i][k].request);
      assert Admissible(s.filter.keys.value[j]);
    }
  }

  lemma TakeTraced(s: State, e: Event, t: State)
    requires Inv(s) && Traced(s) && e.Take? && ApplyIoctl(s, e) == Some(t)
    ensures Traced(t)
  {
    if t != s {
      ListedKinds(s, e.key.interface);
      assert OpTraced(t.takes, t.ops[|s.ops|]);
    }
  }

  lemma CompleteTraced(s: State, e: Event, t: State)
    requires Shape(s) && Traced(s) && (e.Finish? || e.FlushNext? || e.FlushDone?) && ApplyComplete(s, e) == Some(t)
    ensures Traced(t)
  {
    assert OpTraced(s.takes, s.ops[e.op]);
    if !e.FlushDone? {
      assert Says(t.takes, t.causes[|s.done|], t.done[|s.done|]);
    }
  }

  lemma FlushTraced(s: State, e: Event, t: State)
    requires Inv(s) && Traced(s) && (e.WatchdogFlush? || e.CloseBegin?) && Apply(s, e) == Some(t)
    ensures Traced(t)
  {
    ListedKinds(s, 0);
    ListedKinds(s, 1);
  }

  lemma StepTraced(s: State, e: Event, t: State)
    requires Inv(s) && Traced(s) && Apply(s, e) == Some(t)
    ensures Traced(t)
  {
    match e
    case Take(_, _, _, _) => TakeTraced(s, e, t);
    case Finish(_, _) => CompleteTraced(s, e, t);
    case FlushNext(_, _) => CompleteTraced(s, e, t);
    case FlushDone(_) => CompleteTraced(s, e, t);
    case WatchdogFlush(_) => FlushTraced(s, e, t);
    case CloseBegin => FlushTraced(s, e, t);
    case _ =>
  }

  lemma {:induction false} RunTraced(s: State, events: seq<Event>, t: State)
    requires Inv(s) && Traced(s) && Run(s, events) == Some(t)
    ensures Traced(t)
    decreases |events|
  {
    if events != [] {
      var before := events[..|events| - 1];
      RunKeepsInv(s, before, Run(s, before).value);
      RunTraced(s, before, Run(s, before).value);
      StepTraced(Run(s, before).value, events[|events| - 1], t);
    }
  }

  /** In every run each completion has a cause. One made by the complete IOCTL is of the request that the IOCTL
      took, with the status that the IOCTL named if that was final; otherwise, and for the requests that the
      watchdog or the close flush, the status is what processing without the filter returned. */
  lemma CompletionSays(s: State, i: nat)
    requires Reachable(s) && i < |s.done|
    ensures |s.causes| == |s.done| && Says(s.takes, s.causes[i], s.done[i])
  {
    var events :| Run(INITIAL, events) == Some(s);
    assert EntryIds([]) == [] && DoneIds([]) == [];
    assert Inv(INITIAL) && Traced(INITIAL);
    RunTraced(INITIAL, events, s);
  }

  // ---- Each take is answered once -------------------------------------------------------------

  function Finishes(x: Op, k: nat): nat {
    if x.Finishing? && x.take == k then 1 else 0
  }

  function Finishers(ops: seq<Op>, k: nat): nat {
    if ops == [] then 0 else Finishers(ops[..|ops| - 1], k) + Finishes(ops[|ops| - 1], k)
  }

  function Answers(causes: seq<Cause>, k: nat): nat {
    if causes == [] then 0
    else Answers(causes[..|causes| - 1], k) + if causes[|causes| - 1].ByTake? && causes[|causes| - 1].take == k then 1 else 0
  }

  lemma {:induction false} FinishersUpdate(ops: seq<Op>, i: nat, x: Op, k: nat)
    requires i < |ops|
    ensures Finishers(ops[i := x], k) + Finishes(ops[i], k) == Finishers(ops, k) + Finishes(x, k)
    decreases |ops|
  {
    var last := |ops| - 1;
    if i < last {
      FinishersUpdate(ops[..last], i, x, k);
      assert ops[i := x][..last] == ops[..last][i := x];
    } else {
      assert ops[i := x][..last] == ops[..last];
    }
  }

  lemma FinishersAppend(ops: seq<Op>, x: Op, k: nat)
    ensures Finishers(ops + [x], k) == Finishers(ops, k) + Finishes(x, k)
  {
    assert (ops + [x])[..|ops|] == ops;
  }

  predicate AnsweredOnce(s: State, k: nat) {
    Finishers(s.ops, k) + Answers(s.causes, k) == if k < |s.takes| then 1 else 0
  }

  lemma StepAnswers(s: State, e: Event, t: State, k: nat)
    requires Shape(s) && Apply(s, e) == Some(t) && AnsweredOnce(s, k)
    ensures AnsweredOnce(t, k)
  {
    match e
    case Take(_, _, _, _) => TakeAnswers(s, e, t, k);
    case Finish(_, _) => CompleteAnswers(s, e, t, k);
    case FlushNext(_, _) => CompleteAnswers(s, e, t, k);
    case FlushDone(_) => CompleteAnswers(s, e, t, k);
    case WatchdogFlush(_) => FlushAnswers(s, e, t, k);
    case WatchdogCheck(_) => FlushAnswers(s, e, t, k);
    case CloseBegin => FlushAnswers(s, e, t, k);
    case _ => SameWork(s, e, t);
  }

  lemma SameWork(s: State, e: Event, t: State)
    requires Shape(s) && Apply(s, e) == Some(t) && (e.Arrive? || e.SetFilter? || e.Open? || e.CloseEnd?)
    ensures t.ops == s.ops && t.takes == s.takes && t.causes == s.causes
  {
  }

  lemma FlushAnswers(s: State, e: Event, t: State, k: nat)
    requires Shape(s) && Apply(s, e) == Some(t) && (e.WatchdogFlush? || e.WatchdogCheck? || e.CloseBegin?) && AnsweredOnce(s, k)
    ensures AnsweredOnce(t, k)
  {
    FlushWork(s, e, t);
    if |t.ops| > |s.ops| {
      FinishersAppend(s.ops, t.ops[|s.ops|], k);
    } else if e.WatchdogFlush? {
      FinishersUpdate(s.ops, e.op, t.ops[e.op], k);
    }
  }

  lemma FlushWork(s: State, e: Event, t: State)
    requires Shape(s) && Apply(s, e) == Some(t) && (e.WatchdogFlush? || e.WatchdogCheck? || e.CloseBegin?)
    ensures t.takes == s.takes && t.causes == s.causes
    ensures e.WatchdogFlush? ==> e.op < |s.ops| && !s.ops[e.op].Finishing? && t.ops == s.ops[e.op := Flushing(s.filter.lists, false)]
    ensures !e.WatchdogFlush? ==> t.ops == s.ops || (t.ops == s.ops + [t.ops[|t.ops| - 1]] && !t.ops[|t.ops| - 1].Finishing?)
  {
  }

  lemma TakeAnswers(s: State, e: Event, t: State, k: nat)
    requires Shape(s) && e.Take? && ApplyIoctl(s, e) == Some(t) && AnsweredOnce(s, k)
    ensures AnsweredOnce(t, k)
  {
    if t != s {
      FinishersAppend(s.ops, t.ops[|s.ops|], k);
    }
  }

  lemma CompleteAnswers(s: State, e: Event, t: State, k: nat)
    requires (e.Finish? || e.FlushNext? || e.FlushDone?) && ApplyComplete(s, e) == Some(t) && AnsweredOnce(s, k)
    ensures AnsweredOnce(t, k)
  {
    CompleteWork(s, e, t);
    FinishersUpdate(s.ops, e.op, t.ops[e.op], k);
    if !e.FlushDone? {
      AnswersAppend(s.causes, t.causes[|s.causes|], k);
    }
  }

  lemma AnswersAppend(causes: seq<Cause>, c: Cause, k: nat)
    ensures Answers(causes + [c], k) == Answers(causes, k) + if c.ByTake? && c.take == k then 1 else 0
  {
    assert (causes + [c])[..|causes|] == causes;
  }

  lemma CompleteWork(s: State, e: Event, t: State)
    requires (e.Finish? || e.FlushNext? || e.FlushDone?) && ApplyComplete(s, e) == Some(t)
    ensures e.op < |s.ops| == |t.ops| && t.ops == s.ops[e.op := t.ops[e.op]] && t.takes == s.takes && !t.ops[e.op].Finishing?
    ensures e.FlushDone? ==> t.causes == s.causes && !s.ops[e.op].Finishing?
    ensures !e.FlushDone? ==> |t.causes| == |s.causes| + 1 && t.causes == s.causes + [t.causes[|s.causes|]]
    ensures !e.FlushDone? && s.ops[e.op].Finishing? ==> t.causes[|s.causes|].ByTake? && t.causes[|s.causes|].take == s.ops[e.op].take
    ensures !e.FlushDone? && !s.ops[e.op].Finishing? ==> t.causes[|s.causes|].ByFlush?
  {
  }

  lemma {:induction false} RunAnswers(events: seq<Event>, s: State, k: nat)
    requires Run(INITIAL, events) == Some(s)
    ensures AnsweredOnce(s, k)
    decreases |events|
  {
    if events != [] {
      var before := events[..|events| - 1];
      RunAnswers(before, Run(INITIAL, before).value, k);
      StepAnswers(Run(INITIAL, before).value, events[|events| - 1], s, k);
    }
  }

  /** A request that a complete IOCTL took is with that IOCTL or has been completed by it, once. */
  lemma TakeAnsweredOnce(s: State, k: nat)
    requires Reachable(s) && k < |s.takes|
    ensures Finishers(s.ops, k) + Answers(s.causes, k) == 1
  {
    var events :| Run(INITIAL, events) == Some(s);
    RunAnswers(events, s, k);
  }

  // ---- The operations, uninterrupted ----------------------------------------------------------

  /** What processing without the filter returns for a request. */
  type Regular = Request -> nat

  /** The completions of flushed requests, in their order. */
  function Drained(list: seq<Entry>, regular: Regular): (r: seq<Completion>)
    ensures |r| == |list|
  {
    seq(|list|, i requires 0 <= i < |list| =>
      Completion(list[i].request.id, if HandledKind(list[i].request) then Final(regular(list[i].request)) else Final(NOT_SUPPORTED)))
  }

  lemma DrainedHead(list: seq<Entry>, regular: Regular)
    requires list != []
    ensures Drained(list, regular) == Drained(list[..1], regular) + Drained(list[1..], regular)
    ensures Drained(list[..1], regular) == [Completion(list[0].request.id, Settled(list[0].request, Pending, regular(list[0].request)))]
  {
  }

  /** What a flush completes: the regular requests before the direct ones. */
  function FlushedAll(lists: seq<seq<Entry>>, regular: Regular): seq<Completion>
    requires |lists| == INTERFACES
  {
    Drained(lists[0], regular) + Drained(lists[1], regular)
  }

  /** An operation changed the filter, the user and what is completed, and nothing that came before. */
  predicate Became(s: State, t: State, filter: Filter, user: Option<User>, done: seq<Completion>) {
    && t.filter == filter && t.user == user && t.done == s.done + done
    && t.returned == s.returned && t.pended == s.pended
  }

  /** The requests that a flush still has, by interface, without the next one. */
  function Next(lists: seq<seq<Entry>>): (r: (Request, seq<seq<Entry>>))
    requires |lists| == INTERFACES && (lists[0] != [] || lists[1] != [])
    ensures |r.1| == INTERFACES && |r.1[0]| + |r.1[1]| < |lists[0]| + |lists[1]|
  {
    if lists[0] != [] then (lists[0][0].request, lists[0 := lists[0][1..]])
    else (lists[1][0].request, lists[1 := lists[1][1..]])
  }

  lemma FlushedNext(lists: seq<seq<Entry>>, regular: Regular)
    requires |lists| == INTERFACES && (lists[0] != [] || lists[1] != [])
    ensures var (r, rest) := Next(lists);
      FlushedAll(lists, regular) == [Completion(r.id, Settled(r, Pending, regular(r)))] + FlushedAll(rest, regular)
  {
    if lists[0] != [] {
      DrainedHead(lists[0], regular);
    } else {
      DrainedHead(lists[1], regular);
    }
  }

  lemma FlushOne(s: State, op: nat, lists: seq<seq<Entry>>, closing: bool, regular: Regular) returns (t: State)
    requires Shape(s) && op < |s.ops| && s.ops[op] == Flushing(lists, closing) && |lists| == INTERFACES && (lists[0] != [] || lists[1] != [])
    ensures var (r, rest) := Next(lists);
      && Shape(t) && Leads(s, t) && Became(s, t, s.filter, s.user, [Completion(r.id, Settled(r, Pending, regular(r)))])
      && t.ops == s.ops[op := Flushing(rest, closing)]
  {
    var (r, rest) := Next(lists);
    var e := FlushNext(op, regular(r));
    t := ApplyComplete(s, e).value;
    OneStep(s, e, t);
  }

  lemma {:induction false} FlushLeads(s: State, op: nat, lists: seq<seq<Entry>>, closing: bool, regular: Regular) returns (t: State)
    requires Shape(s) && op < |s.ops| && s.ops[op] == Flushing(lists, closing) && |lists| == INTERFACES
    ensures Shape(t) && Leads(s, t) && Became(s, t, s.filter, s.user, FlushedAll(lists, regular))
    ensures t.ops == s.ops[op := Idle]
    decreases |lists[0]| + |lists[1]|
  {
    if lists[0] == [] && lists[1] == [] {
      t := FlushEnds(s, op, lists, closing);
    } else {
      FlushedNext(lists, regular);
      var u := FlushOne(s, op, lists, closing, regular);
      t := FlushLeads(u, op, Next(lists).1, closing, regular);
      LeadsThrough(s, u, t);
      BecameTwice(s, u, t, s.filter, s.user, u.done[|s.done|..], FlushedAll(Next(lists).1, regular));
    }
  }

  lemma BecameTwice(s: State, t: State, u: State, filter: Filter, user: Option<User>, first: seq<Completion>, second: seq<Completion>)
    requires Became(s, t, t.filter, t.user, first) && Became(t, u, filter, user, second)
    ensures Became(s, u, filter, user, first + second)
  {
  }

  lemma FlushEnds(s: State, op: nat, lists: seq<seq<Entry>>, closing: bool) returns (t: State)
    requires Shape(s) && op < |s.ops| && s.ops[op] == Flushing(lists, closing) && |lists| == INTERFACES && lists[0] == lists[1] == []
    ensures Shape(t) && Leads(s, t) && Became(s, t, s.filter, s.user, [])
    ensures t.ops == s.ops[op := Idle]
  {
    assert lists == [[], []];
    t := ApplyComplete(s, FlushDone(op)).value;
    OneStep(s, FlushDone(op), t);
  }

  /** An OID request handler, for a request that is not already pended. */
  lemma ArriveIsRun(s: State, interface: nat, r: Request, now: nat, memory: bool, code: nat) returns (t: State)
    requires Shape(s) && interface < INTERFACES && Tally(s.pended, Some(r.id)) == Tally(DoneIds(s.done), Some(r.id))
    ensures Leads(s, t) && t.user == s.user && t.done == s.done
    ensures t.filter == FilterAfter(s.filter, interface, r, now, memory)
    ensures t.returned == s.returned + [Completion(r.id, Process(r, Filtered(s.filter, interface, r), memory, code))]
  {
    var e := Arrive(interface, r, now, memory, code);
    t := ApplyArrive(s, e).value;
    OneStep(s, e, t);
  }

  /** The request is pended if it is of a kind that is handled, matches a key, and there is memory. */
  function FilterAfter(f: Filter, interface: nat, r: Request, now: nat, memory: bool): Filter
    requires ShapeOk(f) && interface < INTERFACES
  {
    if HandledKind(r) && Filtered(f, interface, r) && memory then Pend(f, interface, Entry(r, now)) else f
  }

  lemma OpenIsRun(s: State) returns (t: State)
    requires Shape(s)
    ensures Leads(s, t) && Became(s, t, s.filter, if s.user.None? then Some(User(false, false)) else s.user, [])
  {
    t := ApplyHandle(s, Open).value;
    OneStep(s, Open, t);
  }

  /** The filter IOCTL: keys that decode and are admissible are set if none are. */
  lemma SetFilterIsRun(s: State, version: nat, input: Input, n: nat) returns (t: State)
    requires Shape(s) && Live(s)
    ensures Leads(s, t)
    ensures var set_ := HasKeys(version, input, n) && AllAdmissible(Keys(version, input, n)) && s.filter.keys.None?;
      Became(s, t, if set_ then s.filter.(keys := Some(Keys(version, input, n))) else s.filter,
             if set_ then Some(User(true, false)) else s.user, [])
  {
    t := ApplyIoctl(s, SetFilter(version, input, n)).value;
    OneStep(s, SetFilter(version, input, n), t);
  }

  /** What the complete IOCTL completes: the request that it took, with the status that it named if that is
      final. */
  function Finished(f: Filter, k: Key, status: Status, infoLength: nat, readable: bool, regular: Regular): seq<Completion>
    requires ShapeOk(f)
  {
    if TakeOutcome(f, k, status, infoLength, readable) != Success then []
    else if status == Pending then Drained(f.lists[k.interface][..1], regular)
    else [Completion(f.lists[k.interface][0].request.id, status)]
  }

  function FilterTaken(f: Filter, k: Key, status: Status, infoLength: nat, readable: bool): Filter
    requires ShapeOk(f)
  {
    if TakeOutcome(f, k, status, infoLength, readable) == Success then Remove(f, k.interface) else f
  }

  lemma CompleteIsRun(s: State, k: Key, status: Status, infoLength: nat, readable: bool, regular: Regular) returns (t: State)
    requires Shape(s) && Live(s)
    ensures Leads(s, t)
    ensures Became(s, t, FilterTaken(s.filter, k, status, infoLength, readable), s.user,
                   Finished(s.filter, k, status, infoLength, readable, regular))
  {
    t := ApplyIoctl(s, Take(k, status, infoLength, readable)).value;
    OneStep(s, Take(k, status, infoLength, readable), t);
    if TakeOutcome(s.filter, k, status, infoLength, readable) == Success {
      var u, e := t, Finish(|s.ops|, regular(s.filter.lists[k.interface][0].request));
      t := ApplyComplete(u, e).value;
      LeadsOn(s, u, e, t);
      DrainedHead(s.filter.lists[k.interface], regular);
    }
  }

  /** The watchdog: if a pended request is past its time, the keys go and everything is flushed. */
  lemma WatchdogIsRun(s: State, now: nat, regular: Regular) returns (t: State)
    requires Shape(s)
    ensures Leads(s, t)
    ensures if Expired(s.filter.lists[0], now) || Expired(s.filter.lists[1], now)
            then Became(s, t, Filter(None, [[], []]), s.user, FlushedAll(s.filter.lists, regular))
            else Became(s, t, s.filter, s.user, [])
  {
    t := ApplyWatchdog(s, WatchdogCheck(now)).value;
    OneStep(s, WatchdogCheck(now), t);
    if Expired(s.filter.lists[0], now) || Expired(s.filter.lists[1], now) {
      var u := t;
      var v := ApplyWatchdog(u, WatchdogFlush(|s.ops|)).value;
      LeadsOn(s, u, WatchdogFlush(|s.ops|), v);
      t := FlushLeads(v, |s.ops|, s.filter.lists, false, regular);
      LeadsThrough(s, v, t);
    }
  }

  /** The close: a handle that set the filter flushes, and then the adapter is free for another. */
  lemma CloseIsRun(s: State, regular: Regular) returns (t: State)
    requires Reachable(s) && Live(s)
    ensures Shape(s) && Leads(s, t)
    ensures if s.user.value.setFilter then Became(s, t, Filter(None, [[], []]), None, FlushedAll(s.filter.lists, regular))
            else Became(s, t, s.filter, None, [])
  {
    ReachableInv(s);
    var u := ApplyHandle(s, CloseBegin).value;
    OneStep(s, CloseBegin, u);
    if s.user.value.setFilter {
      var v := FlushLeads(u, |s.ops|, s.filter.lists, true, regular);
      LeadsThrough(s, u, v);
      t := CloseLeads(s, v);
    } else {
      t := CloseLeads(s, u);
    }
  }

  lemma CloseLeads(s: State, u: State) returns (t: State)
    requires Shape(s) && Shape(u) && Leads(s, u) && u.user.Some? && u.user.value.closing
    requires |s.ops| <= |u.ops| <= |s.ops| + 1 && (forall i :: 0 <= i < |s.ops| ==> u.ops[i] == s.ops[i])
    requires (|u.ops| > |s.ops| ==> u.ops[|s.ops|] == Idle) && !ClosingFlush(s)
    ensures Leads(s, t) && t == u.(user := None)
  {
    t := u.(user := None);
    assert !ClosingFlush(u);
    LeadsOn(s, u, CloseEnd, t);
  }
}
