/** The miniport's ports. A transition marks its port, drops the lock while NDIS is told, and takes the
    lock again, so operations interleave in the middle of transitions. */
module Ports {
  import opened Bytes

  datatype PortState = Allocated | Activating | Activated | Deactivating

  datatype Port = Port(number: nat, state: PortState)

  /** What a thread is in the middle of. */
  datatype Thread =
    | Adding(number: nat)            // NDIS gave a number; not yet linked
    | Starting(number: nat)          // told NDIS to activate; lock dropped
    | Stopping(number: nat)          // told NDIS to deactivate; lock dropped
    | Cleaning                       // cleanup, before it takes the lock
    | Cleared(number: nat)           // cleanup waits for the deactivation of a port; lock dropped
    | Finished

  /** ndis is the set of numbers that NDIS has handed out; broken says that a cleanup found a port in
      transition, which its assertion excludes. */
  datatype State = State(ports: seq<Port>, threads: seq<Thread>, ndis: set<nat>, broken: bool)

  datatype Event =
    | AllocateBegin(number: nat)
    | AllocateEnd(thread: nat)
    | Free(number: nat, ok: bool)
    | ActivateBegin(number: nat)
    | ActivateEnd(thread: nat, ok: bool)
    | DeactivateBegin(number: nat)
    | DeactivateEnd(thread: nat, ok: bool)
    | CleanupBegin
    | CleanupRun(thread: nat)

  /** MpFindPortEntry. */
  function Find(ports: seq<Port>, number: nat, from: nat): (r: Option<nat>)
    requires from <= |ports|
    ensures r.Some? ==> from <= r.value < |ports| && ports[r.value].number == number
    ensures r.None? ==> forall i :: from <= i < |ports| ==> ports[i].number != number
    decreases |ports| - from
  {
    if from == |ports| then None else if ports[from].number == number then Some(from) else Find(ports, number, from + 1)
  }

  function SetState(ports: seq<Port>, i: nat, state: PortState): seq<Port>
    requires i < |ports|
  {
    ports[i := ports[i].(state := state)]
  }

  function Unlink(ports: seq<Port>, i: nat): seq<Port>
    requires i < |ports|
  {
    ports[..i] + ports[i + 1..]
  }

  function ApplyAllocate(s: State, e: Event): Option<State>
    requires e.AllocateBegin? || e.AllocateEnd?
  {
    match e
    case AllocateBegin(number) =>
      if number in s.ndis then None else Some(s.(ndis := s.ndis + {number}, threads := s.threads + [Adding(number)]))
    case AllocateEnd(t) =>
      if t < |s.threads| && s.threads[t].Adding? then
        Some(s.(ports := s.ports + [Port(s.threads[t].number, Allocated)], threads := s.threads[t := Finished]))
      else None
  }

  function ApplyFree(s: State, e: Event): Option<State>
    requires e.Free?
  {
    var at := Find(s.ports, e.number, 0);
    if at.None? || s.ports[at.value].state != Allocated || !e.ok then Some(s)
    else Some(s.(ports := Unlink(s.ports, at.value), ndis := s.ndis - {e.number}))
  }

  function ApplyBegin(s: State, e: Event): Option<State>
    requires e.ActivateBegin? || e.DeactivateBegin?
  {
    var at := Find(s.ports, e.number, 0);
    if at.None? then Some(s)
    else if e.ActivateBegin? && s.ports[at.value].state == Allocated then
      Some(s.(ports := SetState(s.ports, at.value, Activating), threads := s.threads + [Starting(e.number)]))
    else if e.DeactivateBegin? && s.ports[at.value].state == Activated then
      Some(s.(ports := SetState(s.ports, at.value, Deactivating), threads := s.threads + [Stopping(e.number)]))
    else Some(s)
  }

  /** The owner takes the lock again and writes the entry it still points to. */
  function ApplyEnd(s: State, e: Event): Option<State>
    requires e.ActivateEnd? || e.DeactivateEnd?
  {
    if e.thread >= |s.threads| then None
    else
      var x := s.threads[e.thread];
      if (e.ActivateEnd? && !x.Starting?) || (e.DeactivateEnd? && !x.Stopping?) then None
      else
        var at := Find(s.ports, x.number, 0);
        if at.None? then None
        else
          Some(s.(ports := SetState(s.ports, at.value, if e.ActivateEnd? == e.ok then Activated else Allocated),
                  threads := s.threads[e.thread := Finished]))
  }

  /** The ports that cleanup frees before it meets one that is not just allocated. */
  function Idle(ports: seq<Port>): nat
    ensures Idle(ports) <= |ports|
    ensures forall i :: 0 <= i < Idle(ports) ==> ports[i].state == Allocated
    ensures Idle(ports) < |ports| ==> ports[Idle(ports)].state != Allocated
  {
    if ports == [] || ports[0].state != Allocated then 0 else 1 + Idle(ports[1..])
  }

  /** The numbers that NDIS still knows after the first n ports are freed. */
  function Released(ndis: set<nat>, ports: seq<Port>, n: nat): set<nat>
    requires n <= |ports|
  {
    if n == 0 then ndis else Released(ndis, ports, n - 1) - {ports[n - 1].number}
  }

  lemma {:induction false} ReleasedIff(ndis: set<nat>, ports: seq<Port>, n: nat, x: nat)
    requires n <= |ports|
    ensures x in Released(ndis, ports, n) <==> x in ndis && forall i :: 0 <= i < n ==> ports[i].number != x
  {
    if n > 0 {
      ReleasedIff(ndis, ports, n - 1, x);
    }
  }

  lemma ReleasedAll(ndis: set<nat>, ports: seq<Port>)
    ensures forall x :: x in Released(ndis, ports, |ports|) <==> x in ndis && forall i :: 0 <= i < |ports| ==> ports[i].number != x
  {
    forall x
      ensures x in Released(ndis, ports, |ports|) <==> x in ndis && forall i :: 0 <= i < |ports| ==> ports[i].number != x
    {
      ReleasedIff(ndis, ports, |ports|, x);
    }
  }

  /** The cleanup loop under the lock, until the list is empty or a deactivation drops the lock. */
  function Sweep(s: State, t: nat): State
    requires t < |s.threads|
  {
    var n := Idle(s.ports);
    var rest := s.ports[n..];
    var swept := s.(ports := rest, ndis := Released(s.ndis, s.ports, n));
    if rest == [] then swept.(threads := s.threads[t := Finished])
    else if rest[0].state == Activated then
      swept.(ports := SetState(rest, 0, Deactivating), threads := s.threads[t := Cleared(rest[0].number)])
    else swept.(broken := true)
  }

  /** The deactivated port is freed and the loop goes on. */
  function Cleanse(s: State, t: nat, at: nat): State
    requires t < |s.threads| && s.threads[t].Cleared? && at < |s.ports|
  {
    State(Unlink(s.ports, at), s.threads[t := Cleaning], s.ndis - {s.threads[t].number}, s.broken)
  }

  function ApplyCleanup(s: State, e: Event): Option<State>
    requires e.CleanupBegin? || e.CleanupRun?
  {
    match e
    case CleanupBegin => Some(s.(threads := s.threads + [Cleaning]))
    case CleanupRun(t) =>
      if t >= |s.threads| then None
      else if s.threads[t].Cleaning? then Some(Sweep(s, t))
      else if s.threads[t].Cleared? then
        var at := Find(s.ports, s.threads[t].number, 0);
        if at.None? then None
        else Some(Sweep(Cleanse(s, t, at.value), t))
      else None
  }

  function Apply(s: State, e: Event): Option<State> {
    match e
    case AllocateBegin(_) => ApplyAllocate(s, e)
    case AllocateEnd(_) => ApplyAllocate(s, e)
    case Free(_, _) => ApplyFree(s, e)
    case ActivateBegin(_) => ApplyBegin(s, e)
    case DeactivateBegin(_) => ApplyBegin(s, e)
    case ActivateEnd(_, _) => ApplyEnd(s, e)
    case DeactivateEnd(_, _) => ApplyEnd(s, e)
    case CleanupBegin => ApplyCleanup(s, e)
    case CleanupRun(_) => ApplyCleanup(s, e)
  }

  const INITIAL: State := State([], [], {}, false)

  ghost function Run(s: State, events: seq<Event>): Option<State> {
    if events == [] then Some(s)
    else
      var t := Run(s, events[..|events| - 1]);
      if t.None? || t.value.broken then None else Apply(t.value, events[|events| - 1])
  }

  ghost predicate Reachable(s: State) {
    exists events :: Run(INITIAL, events) == Some(s)
  }

  ghost predicate Leads(s: State, t: State) {
    exists events :: Run(s, events) == Some(t)
  }

  lemma Stays(s: State)
    ensures Leads(s, s)
  {
    assert Run(s, []) == Some(s);
  }

  lemma LeadsOn(s0: State, s: State, e: Event, t: State)
    requires Leads(s0, s) && !s.broken && Apply(s, e) == Some(t)
    ensures Leads(s0, t)
  {
    var events :| Run(s0, events) == Some(s);
    assert (events + [e])[..|events|] == events;
    assert Run(s0, events + [e]) == Some(t);
  }

  lemma {:induction false} RunConcat(s: State, a: seq<Event>, b: seq<Event>)
    requires Run(s, a).Some?
    ensures Run(s, a + b) == Run(Run(s, a).value, b)
    decreases |b|
  {
    if b == [] {
      assert a + b == a;
    } else {
      RunConcat(s, a, b[..|b| - 1]);
      assert (a + b)[..|a + b| - 1] == a + b[..|b| - 1];
    }
  }

  lemma LeadsTwice(s: State, u: State, t: State)
    requires Leads(s, u) && Leads(u, t)
    ensures Leads(s, t)
  {
    var a :| Run(s, a) == Some(u);
    var b :| Run(u, b) == Some(t);
    RunConcat(s, a, b);
  }

  lemma Extend(s: State, e: Event, t: State)
    requires Reachable(s) && !s.broken && Apply(s, e) == Some(t)
    ensures Reachable(t)
  {
    assert Leads(INITIAL, s);
    LeadsOn(INITIAL, s, e, t);
  }

  // ---- The invariant --------------------------------------------------------------------------

  predicate InFlight(x: Thread) {
    x.Starting? || x.Stopping? || x.Cleared?
  }

  /** The state in which a transition in flight keeps its port. */
  function Marked(x: Thread): PortState
    requires InFlight(x)
  {
    if x.Starting? then Activating else Deactivating
  }

  predicate DistinctNumbers(ports: seq<Port>) {
    forall i, j :: 0 <= i < j < |ports| ==> ports[i].number != ports[j].number
  }

  predicate Known(s: State) {
    && (forall i :: 0 <= i < |s.ports| ==> s.ports[i].number in s.ndis)
    && (forall t :: 0 <= t < |s.threads| && s.threads[t].Adding? ==> s.threads[t].number in s.ndis)
  }

  /** A number that is not linked yet is not linked, and is added by one thread only. */
  predicate AddingApart(s: State) {
    && (forall t, i :: 0 <= t < |s.threads| && s.threads[t].Adding? && 0 <= i < |s.ports| ==> s.ports[i].number != s.threads[t].number)
    && (forall t, u :: 0 <= t < u < |s.threads| && s.threads[t].Adding? && s.threads[u].Adding? ==> s.threads[t].number != s.threads[u].number)
  }

  /** Every transition in flight finds its port linked and in its own state. */
  predicate Held(s: State) {
    forall t :: 0 <= t < |s.threads| && InFlight(s.threads[t]) ==>
      Port(s.threads[t].number, Marked(s.threads[t])) in s.ports
  }

  /** A port has at most one transition in flight. */
  predicate OnePerPort(s: State) {
    forall t, u :: 0 <= t < u < |s.threads| && InFlight(s.threads[t]) && InFlight(s.threads[u]) ==>
      s.threads[t].number != s.threads[u].number
  }

  predicate Busy(p: Port) {
    p.state == Activating || p.state == Deactivating
  }

  predicate Moving(threads: seq<Thread>, number: nat) {
    exists t :: 0 <= t < |threads| && InFlight(threads[t]) && threads[t].number == number
  }

  /** A port is marked only while a transition is in flight. */
  predicate Accounted(s: State) {
    forall i :: 0 <= i < |s.ports| && Busy(s.ports[i]) ==> Moving(s.threads, s.ports[i].number)
  }

  predicate Inv(s: State) {
    DistinctNumbers(s.ports) && Known(s) && AddingApart(s) && Held(s) && OnePerPort(s) && Accounted(s)
  }

  lemma FindDistinct(ports: seq<Port>, p: Port)
    requires DistinctNumbers(ports) && p in ports
    ensures Find(ports, p.number, 0).Some? && ports[Find(ports, p.number, 0).value] == p
  {
  }

  lemma StaysIn(ports: seq<Port>, i: nat, x: Port, p: Port)
    requires i < |ports| && p in ports && p != ports[i]
    ensures p in ports[i := x] && p in Unlink(ports, i)
  {
    var k :| 0 <= k < |ports| && ports[k] == p;
    assert ports[i := x][k] == p;
    if k < i {
      assert Unlink(ports, i)[k] == p;
    } else {
      assert Unlink(ports, i)[k - 1] == p;
    }
  }

  lemma StaysMoving(threads: seq<Thread>, more: seq<Thread>, number: nat)
    requires Moving(threads, number) && |threads| <= |more|
    requires forall t :: 0 <= t < |threads| && InFlight(threads[t]) && threads[t].number == number ==> more[t] == threads[t]
    ensures Moving(more, number)
  {
    var t :| 0 <= t < |threads| && InFlight(threads[t]) && threads[t].number == number;
    assert InFlight(more[t]) && more[t].number == number;
  }

  lemma AllocateKeepsInv(s: State, e: Event, t: State)
    requires Inv(s) && (e.AllocateBegin? || e.AllocateEnd?) && ApplyAllocate(s, e) == Some(t)
    ensures Inv(t)
  {
    forall i | 0 <= i < |t.ports| && Busy(t.ports[i])
      ensures Moving(t.threads, t.ports[i].number)
    {
      StaysMoving(s.threads, t.threads, t.ports[i].number);
    }
  }

  lemma UnlinkKeepsInv(s: State, i: nat, number: nat, t: State)
    requires Inv(s) && i < |s.ports| && s.ports[i].number == number && !Busy(s.ports[i])
    requires t == s.(ports := Unlink(s.ports, i), ndis := s.ndis - {number})
    ensures Inv(t)
  {
    assert forall k :: 0 <= k < |t.ports| ==> t.ports[k] == s.ports[if k < i then k else k + 1];
    forall u | 0 <= u < |t.threads| && InFlight(t.threads[u])
      ensures Port(t.threads[u].number, Marked(t.threads[u])) in t.ports
    {
      StaysIn(s.ports, i, s.ports[i], Port(t.threads[u].number, Marked(t.threads[u])));
    }
  }

  lemma FreeKeepsInv(s: State, e: Event, t: State)
    requires Inv(s) && e.Free? && ApplyFree(s, e) == Some(t)
    ensures Inv(t)
  {
    var at := Find(s.ports, e.number, 0);
    if t != s {
      UnlinkKeepsInv(s, at.value, e.number, t);
    }
  }

  /** Marking an unmarked port for a new transition. */
  lemma MarkKeepsInv(s: State, i: nat, threads: seq<Thread>, u: nat, t: State)
    requires Inv(s) && i < |s.ports| && !Busy(s.ports[i])
    requires u < |threads| && InFlight(threads[u]) && threads[u].number == s.ports[i].number
    requires |s.threads| <= |threads| <= |s.threads| + 1 && (u == |s.threads| || !(InFlight(s.threads[u]) || s.threads[u].Adding?))
    requires forall k :: 0 <= k < |threads| && k != u ==> k < |s.threads| && threads[k] == s.threads[k]
    requires t == s.(ports := SetState(s.ports, i, Marked(threads[u])), threads := threads)
    ensures Inv(t)
  {
    forall k | 0 <= k < |threads| && InFlight(threads[k])
      ensures Port(threads[k].number, Marked(threads[k])) in t.ports
      ensures k != u ==> threads[k].number != threads[u].number
    {
      if k == u {
        assert t.ports[i] == Port(threads[u].number, Marked(threads[u]));
      } else {
        var p := Port(threads[k].number, Marked(threads[k]));
        assert p in s.ports;
        StaysIn(s.ports, i, t.ports[i], p);
        FindDistinct(s.ports, p);
      }
    }
    forall k | 0 <= k < |t.ports| && Busy(t.ports[k])
      ensures Moving(threads, t.ports[k].number)
    {
      if k != i {
        StaysMoving(s.threads, threads, t.ports[k].number);
      }
    }
  }

  lemma BeginKeepsInv(s: State, e: Event, t: State)
    requires Inv(s) && (e.ActivateBegin? || e.DeactivateBegin?) && ApplyBegin(s, e) == Some(t)
    ensures Inv(t)
  {
    var at := Find(s.ports, e.number, 0);
    if t != s {
      MarkKeepsInv(s, at.value, t.threads, |s.threads|, t);
    }
  }

  lemma EndKeepsInv(s: State, e: Event, t: State)
    requires Inv(s) && (e.ActivateEnd? || e.DeactivateEnd?) && ApplyEnd(s, e) == Some(t)
    ensures Inv(t)
  {
    var x := s.threads[e.thread];
    var i := Find(s.ports, x.number, 0).value;
    FindDistinct(s.ports, Port(x.number, Marked(x)));
    forall k | 0 <= k < |t.threads| && InFlight(t.threads[k])
      ensures Port(t.threads[k].number, Marked(t.threads[k])) in t.ports
    {
      StaysIn(s.ports, i, t.ports[i], Port(t.threads[k].number, Marked(t.threads[k])));
    }
    forall k | 0 <= k < |t.ports| && Busy(t.ports[k])
      ensures Moving(t.threads, t.ports[k].number)
    {
      StaysMoving(s.threads, t.threads, t.ports[k].number);
    }
  }

  // ---- Cleanup --------------------------------------------------------------------------------

  lemma {:induction false} DrainKeepsInv(s: State, n: nat)
    requires Inv(s) && n <= |s.ports| && forall i :: 0 <= i < n ==> s.ports[i].state == Allocated
    ensures Inv(s.(ports := s.ports[n..], ndis := Released(s.ndis, s.ports, n)))
    decreases n
  {
    if n == 0 {
      assert s.ports[0..] == s.ports;
    } else {
      DrainKeepsInv(s, n - 1);
      var u := s.(ports := s.ports[n - 1..], ndis := Released(s.ndis, s.ports, n - 1));
      var t := s.(ports := s.ports[n..], ndis := Released(s.ndis, s.ports, n));
      assert Unlink(u.ports, 0) == t.ports;
      UnlinkKeepsInv(u, 0, s.ports[n - 1].number, t);
    }
  }

  lemma SweepKeepsInv(s: State, t: nat)
    requires Inv(s) && t < |s.threads| && s.threads[t].Cleaning?
    ensures Inv(Sweep(s, t))
  {
    var n := Idle(s.ports);
    var u := s.(ports := s.ports[n..], ndis := Released(s.ndis, s.ports, n));
    DrainKeepsInv(s, n);
    if u.ports == [] {
      assert Sweep(s, t) == u.(threads := s.threads[t := Finished]);
    } else if u.ports[0].state == Activated {
      MarkKeepsInv(u, 0, s.threads[t := Cleared(u.ports[0].number)], t, Sweep(s, t));
    }
  }

  /** Where an entry of the shortened list came from. */
  lemma Unlinked(ports: seq<Port>, at: nat)
    requires at < |ports|
    ensures |Unlink(ports, at)| == |ports| - 1
    ensures forall k :: 0 <= k < |ports| - 1 ==> Unlink(ports, at)[k] == ports[if k < at then k else k + 1]
  {
  }

  /** A thread whose cleanup frees the port it deactivated. */
  predicate Cleansing(s: State, t: nat, at: nat) {
    Inv(s) && t < |s.threads| && s.threads[t].Cleared? && Find(s.ports, s.threads[t].number, 0) == Some(at)
  }

  lemma CleanseKnown(s: State, t: nat, at: nat)
    requires Cleansing(s, t, at)
    ensures var u := Cleanse(s, t, at); DistinctNumbers(u.ports) && Known(u) && AddingApart(u) && OnePerPort(u)
  {
    Unlinked(s.ports, at);
  }

  lemma CleanseHeld(s: State, t: nat, at: nat)
    requires Cleansing(s, t, at)
    ensures Held(Cleanse(s, t, at))
  {
    var u := Cleanse(s, t, at);
    forall k | 0 <= k < |u.threads| && InFlight(u.threads[k])
      ensures Port(u.threads[k].number, Marked(u.threads[k])) in u.ports
    {
      StaysIn(s.ports, at, s.ports[at], Port(u.threads[k].number, Marked(u.threads[k])));
    }
  }

  lemma CleanseAccounted(s: State, t: nat, at: nat)
    requires Cleansing(s, t, at)
    ensures Accounted(Cleanse(s, t, at))
  {
    var u := Cleanse(s, t, at);
    Unlinked(s.ports, at);
    forall k | 0 <= k < |u.ports| && Busy(u.ports[k])
      ensures Moving(u.threads, u.ports[k].number)
    {
      StaysMoving(s.threads, u.threads, u.ports[k].number);
    }
  }

  lemma CleanseKeepsInv(s: State, t: nat, at: nat)
    requires Cleansing(s, t, at)
    ensures Inv(Cleanse(s, t, at))
  {
    CleanseKnown(s, t, at);
    CleanseHeld(s, t, at);
    CleanseAccounted(s, t, at);
  }

  lemma CleanupKeepsInv(s: State, e: Event, t: State)
    requires Inv(s) && (e.CleanupBegin? || e.CleanupRun?) && ApplyCleanup(s, e) == Some(t)
    ensures Inv(t)
  {
    if e.CleanupBegin? {
      forall k | 0 <= k < |t.ports| && Busy(t.ports[k])
        ensures Moving(t.threads, t.ports[k].number)
      {
        StaysMoving(s.threads, t.threads, t.ports[k].number);
      }
    } else if s.threads[e.thread].Cleaning? {
      SweepKeepsInv(s, e.thread);
    } else {
      var at := Find(s.ports, s.threads[e.thread].number, 0).value;
      CleanseKeepsInv(s, e.thread, at);
      SweepKeepsInv(Cleanse(s, e.thread, at), e.thread);
    }
  }

  lemma StepKeepsInv(s: State, e: Event, t: State)
    requires Inv(s) && Apply(s, e) == Some(t)
    ensures Inv(t)
  {
    match e
    case AllocateBegin(_) => AllocateKeepsInv(s, e, t);
    case AllocateEnd(_) => AllocateKeepsInv(s, e, t);
    case Free(_, _) => FreeKeepsInv(s, e, t);
    case ActivateBegin(_) => BeginKeepsInv(s, e, t);
    case DeactivateBegin(_) => BeginKeepsInv(s, e, t);
    case ActivateEnd(_, _) => EndKeepsInv(s, e, t);
    case DeactivateEnd(_, _) => EndKeepsInv(s, e, t);
    case CleanupBegin => CleanupKeepsInv(s, e, t);
    case CleanupRun(_) => CleanupKeepsInv(s, e, t);
  }

  lemma {:induction false} RunKeepsInv(s: State, events: seq<Event>, t: State)
    requires Inv(s) && Run(s, events) == Some(t)
    ensures Inv(t)
    decreases |events|
  {
    if events != [] {
      var before := events[..|events| - 1];
      RunKeepsInv(s, before, Run(s, before).value);
      StepKeepsInv(Run(s, before).value, events[|events| - 1], t);
    }
  }

  lemma ReachableInv(s: State)
    requires Reachable(s)
    ensures Inv(s)
  {
    var events :| Run(INITIAL, events) == Some(s);
    RunKeepsInv(INITIAL, events, s);
  }

  // ---- What holds in every reachable state ----------------------------------------------------

  /** Port numbers are distinct, and the number that an allocation is about to link is not in use. */
  lemma NumbersDistinct(s: State, i: nat, j: nat)
    requires Reachable(s) && i < j < |s.ports|
    ensures s.ports[i].number != s.ports[j].number
  {
    ReachableInv(s);
  }

  lemma AllocatedNumberIsNew(s: State, t: nat)
    requires Reachable(s) && t < |s.threads| && s.threads[t].Adding?
    ensures Find(s.ports, s.threads[t].number, 0) == None
  {
    ReachableInv(s);
  }

  /** Until its owner takes the lock again, a port in transition stays linked in the state that the
      owner gave it, and no other transition is in flight for it. */
  lemma TransitionIsOwned(s: State, t: nat)
    requires Reachable(s) && t < |s.threads| && InFlight(s.threads[t])
    ensures var at := Find(s.ports, s.threads[t].number, 0);
      at.Some? && s.ports[at.value] == Port(s.threads[t].number, Marked(s.threads[t]))
    ensures forall u :: 0 <= u < |s.threads| && u != t && InFlight(s.threads[u]) ==> s.threads[u].number != s.threads[t].number
  {
    ReachableInv(s);
    FindDistinct(s.ports, Port(s.threads[t].number, Marked(s.threads[t])));
  }

  /** Leaving out the port that the cleanup itself is deactivating, the first port that is more than
      allocated is in transition. */
  predicate Blocked(ports: seq<Port>, own: Option<nat>) {
    exists i :: 0 <= i < |ports| && Blocks(ports, own, i)
  }

  predicate Blocks(ports: seq<Port>, own: Option<nat>, i: nat)
    requires i < |ports|
  {
    && Busy(ports[i]) && own != Some(ports[i].number)
    && forall j :: 0 <= j < i ==> ports[j].state == Allocated || own == Some(ports[j].number)
  }

  lemma SweepBreaksIff(s: State, t: nat)
    requires t < |s.threads| && s.threads[t].Cleaning? && !s.broken
    ensures Sweep(s, t).broken <==> Blocked(s.ports, None)
  {
    var n := Idle(s.ports);
    if n < |s.ports| {
      assert s.ports[n..][0] == s.ports[n];
      assert Busy(s.ports[n]) ==> Blocks(s.ports, None, n);
    }
  }

  lemma UnlinkedBlocked(ports: seq<Port>, at: nat, number: nat)
    requires DistinctNumbers(ports) && at < |ports| && ports[at].number == number
    ensures Blocked(Unlink(ports, at), None) <==> Blocked(ports, Some(number))
  {
    var rest := Unlink(ports, at);
    assert forall k :: 0 <= k < |rest| ==> rest[k] == ports[if k < at then k else k + 1];
    if Blocked(rest, None) {
      var k :| 0 <= k < |rest| && Blocks(rest, None, k);
      var i := if k < at then k else k + 1;
      forall j | 0 <= j < i
        ensures ports[j].state == Allocated || Some(number) == Some(ports[j].number)
      {
        assert j < at ==> rest[j] == ports[j];
        assert j > at ==> rest[j - 1] == ports[j];
      }
      assert Blocks(ports, Some(number), i);
    }
    if Blocked(ports, Some(number)) {
      var i :| 0 <= i < |ports| && Blocks(ports, Some(number), i);
      assert Blocks(rest, None, if i < at then i else i - 1);
    }
  }

  /** A step of a cleanup, at its start or after a deactivation, meets a port in transition exactly when
      it is blocked. */
  lemma CleanupBreaksIff(s: State, t: nat, u: State)
    requires Reachable(s) && !s.broken && ApplyCleanup(s, CleanupRun(t)) == Some(u)
    ensures u.broken <==> Blocked(s.ports, if s.threads[t].Cleared? then Some(s.threads[t].number) else None)
  {
    if s.threads[t].Cleared? {
      ReachableInv(s);
      var at := Find(s.ports, s.threads[t].number, 0).value;
      UnlinkedBlocked(s.ports, at, s.threads[t].number);
      SweepBreaksIff(Cleanse(s, t, at), t);
    } else {
      SweepBreaksIff(s, t);
    }
  }

  /** No transition but the cleanup's own is in flight. */
  predicate Quiet(s: State, t: nat) {
    forall u :: 0 <= u < |s.threads| && InFlight(s.threads[u]) ==> u == t
  }

  lemma QuietSweep(s: State, t: nat)
    requires Inv(s) && !s.broken && t < |s.threads| && s.threads[t].Cleaning? && Quiet(s, t)
    ensures var u := Sweep(s, t);
      && Inv(u) && !u.broken && |u.threads| == |s.threads| && Quiet(u, t) && |u.ports| <= |s.ports|
      && (u.threads[t].Cleared? || (u.threads[t].Finished? && u.ports == []))
  {
    SweepKeepsInv(s, t);
    SweepBreaksIff(s, t);
    assert forall i :: 0 <= i < |s.ports| ==> !Busy(s.ports[i]);
  }

  predicate Linked(ports: seq<Port>, number: nat) {
    exists i :: 0 <= i < |ports| && ports[i].number == number
  }

  /** The numbers that NDIS knows besides those of linked ports. */
  function Beyond(s: State): set<nat> {
    set x | x in s.ndis && !Linked(s.ports, x)
  }

  lemma SweepBeyond(s: State, t: nat)
    requires t < |s.threads|
    ensures Beyond(Sweep(s, t)) == Beyond(s)
  {
    var n, u := Idle(s.ports), Sweep(s, t);
    forall x ensures (x in s.ndis && !Linked(s.ports, x)) <==> (x in u.ndis && !Linked(u.ports, x)) {
      ReleasedIff(s.ndis, s.ports, n, x);
      RestNumbers(s.ports, n, x);
      assert |u.ports| == |s.ports| - n && forall i :: 0 <= i < |u.ports| ==> u.ports[i].number == s.ports[n..][i].number;
      SameNumbers(s.ports[n..], u.ports, x);
    }
    assert Beyond(u) == Beyond(s);
  }

  lemma RestNumbers(ports: seq<Port>, n: nat, x: nat)
    requires n <= |ports|
    ensures Linked(ports, x) <==> Linked(ports[n..], x) || exists i :: 0 <= i < n && ports[i].number == x
  {
    if Linked(ports, x) {
      var i :| 0 <= i < |ports| && ports[i].number == x;
      assert i >= n ==> ports[n..][i - n].number == x;
    }
  }

  lemma SameNumbers(a: seq<Port>, b: seq<Port>, x: nat)
    requires |a| == |b| && forall i :: 0 <= i < |a| ==> a[i].number == b[i].number
    ensures Linked(a, x) <==> Linked(b, x)
  {
    if Linked(a, x) {
      var i :| 0 <= i < |a| && a[i].number == x;
      assert b[i].number == x;
    }
  }

  lemma CleanseBeyond(s: State, t: nat, at: nat)
    requires t < |s.threads| && s.threads[t].Cleared? && at < |s.ports| && s.ports[at].number == s.threads[t].number
    ensures Beyond(Cleanse(s, t, at)) == Beyond(s)
  {
    var u := Cleanse(s, t, at);
    Unlinked(s.ports, at);
    forall x ensures Linked(s.ports, x) <==> Linked(u.ports, x) || x == s.threads[t].number {
      if Linked(s.ports, x) {
        var i :| 0 <= i < |s.ports| && s.ports[i].number == x;
        assert i < at ==> u.ports[i].number == x;
        assert i > at ==> u.ports[i - 1].number == x;
      }
      if Linked(u.ports, x) {
        var k :| 0 <= k < |u.ports| && u.ports[k].number == x;
        assert s.ports[if k < at then k else k + 1].number == x;
      }
    }
  }

  /** States that the steps of one cleanup thread lead through. */
  ghost predicate Steps(states: seq<State>, t: nat) {
    states != [] && forall i :: 0 <= i < |states| - 1 ==> StepTo(states[i], t, states[i + 1])
  }

  predicate StepTo(s: State, t: nat, u: State) {
    ApplyCleanup(s, CleanupRun(t)) == Some(u)
  }

  /** The cleanup thread alone leads from one state to the other. */
  ghost predicate Alone(s: State, t: nat, v: State) {
    exists states :: Steps(states, t) && states[0] == s && states[|states| - 1] == v
  }

  lemma AloneOnce(s: State, t: nat, u: State)
    requires StepTo(s, t, u)
    ensures Alone(s, t, u)
  {
    assert Steps([s, u], t);
  }

  lemma AloneTwice(s: State, t: nat, u: State, v: State)
    requires Alone(s, t, u) && Alone(u, t, v)
    ensures Alone(s, t, v)
  {
    var a :| Steps(a, t) && a[0] == s && a[|a| - 1] == u;
    var b :| Steps(b, t) && b[0] == u && b[|b| - 1] == v;
    var all := a + b[1..];
    forall i | 0 <= i < |all| - 1 ensures StepTo(all[i], t, all[i + 1]) {
      if i < |a| - 1 {
        assert StepTo(a[i], t, a[i + 1]);
      } else {
        assert StepTo(b[i - |a| + 1], t, b[i - |a| + 2]);
      }
    }
    assert Steps(all, t) && all[0] == s && all[|all| - 1] == v;
  }

  /** One step of a cleanup that runs alone ends it, or leaves it at the next port. */
  lemma AloneStep(s: State, t: nat) returns (u: State)
    requires Inv(s) && !s.broken && t < |s.threads| && Quiet(s, t) && (s.threads[t].Cleaning? || s.threads[t].Cleared?)
    ensures StepTo(s, t, u)
    ensures Inv(u) && !u.broken && |u.threads| == |s.threads| && Quiet(u, t)
    ensures u.threads[t].Cleared? || (u.threads[t].Finished? && u.ports == [])
    ensures |u.ports| < |s.ports| || (|u.ports| == |s.ports| && s.threads[t].Cleaning?) || u.threads[t].Finished?
  {
    var cleaning := s;
    if s.threads[t].Cleared? {
      var number := s.threads[t].number;
      FindDistinct(s.ports, Port(number, Deactivating));
      var at := Find(s.ports, number, 0).value;
      CleanseKeepsInv(s, t, at);
      cleaning := Cleanse(s, t, at);
    }
    QuietSweep(cleaning, t);
    u := Sweep(cleaning, t);
  }

  /** The same, seen from outside. */
  lemma AloneProgress(s: State, t: nat) returns (u: State)
    requires Inv(s) && !s.broken && t < |s.threads| && Quiet(s, t) && (s.threads[t].Cleaning? || s.threads[t].Cleared?)
    ensures Alone(s, t, u) && Inv(u) && !u.broken && |u.threads| == |s.threads| && Quiet(u, t)
    ensures u.threads[t].Cleared? || (u.threads[t].Finished? && u.ports == [])
    ensures |u.ports| < |s.ports| || (|u.ports| == |s.ports| && s.threads[t].Cleaning?) || u.threads[t].Finished?
  {
    u := AloneStep(s, t);
    AloneOnce(s, t, u);
  }

  predicate Emptied(s: State, t: nat) {
    s.ports == [] && !s.broken && t < |s.threads| && s.threads[t] == Finished
  }

  lemma {:induction false} AloneEnds(s: State, t: nat) returns (v: State)
    requires Inv(s) && !s.broken && t < |s.threads| && Quiet(s, t) && (s.threads[t].Cleaning? || s.threads[t].Cleared?)
    ensures Alone(s, t, v) && Emptied(v, t)
    decreases |s.ports|, s.threads[t].Cleaning?
  {
    var u := AloneProgress(s, t);
    if u.threads[t].Finished? {
      v := u;
    } else {
      v := AloneEnds(u, t);
      AloneTwice(s, t, u, v);
    }
  }

  lemma StepBeyond(s: State, t: nat, u: State)
    requires StepTo(s, t, u)
    ensures Beyond(u) == Beyond(s) && (s.broken ==> u.broken)
  {
    if s.threads[t].Cleared? {
      var at := Find(s.ports, s.threads[t].number, 0).value;
      CleanseBeyond(s, t, at);
      SweepBeyond(Cleanse(s, t, at), t);
    } else {
      SweepBeyond(s, t);
    }
  }

  lemma StepLeads(s0: State, s: State, t: nat, u: State)
    requires Leads(s0, s) && !s.broken && StepTo(s, t, u)
    ensures Leads(s0, u)
  {
    LeadsOn(s0, s, CleanupRun(t), u);
  }

  /** After k of the steps. */
  lemma {:induction false} StepsLead(states: seq<State>, t: nat, k: nat)
    requires Steps(states, t) && k < |states|
    ensures Beyond(states[k]) == Beyond(states[0])
    ensures states[k].broken || Leads(states[0], states[k])
    decreases k
  {
    if k == 0 {
      Stays(states[0]);
    } else {
      StepsLead(states, t, k - 1);
      assert StepTo(states[k - 1], t, states[k]);
      StepBeyond(states[k - 1], t, states[k]);
      if !states[k].broken {
        StepLeads(states[0], states[k - 1], t, states[k]);
      }
    }
  }

  lemma NoneLinked(s: State)
    requires s.ports == []
    ensures Beyond(s) == s.ndis
  {
    assert forall x :: !Linked(s.ports, x);
  }

  /** With no other transition in flight, cleanup ends, and then no port is left and exactly the linked
      numbers have been given back to NDIS. */
  lemma CleanupEnds(s: State, t: nat) returns (v: State)
    requires Inv(s) && !s.broken && t < |s.threads| && Quiet(s, t) && (s.threads[t].Cleaning? || s.threads[t].Cleared?)
    ensures Alone(s, t, v) && Emptied(v, t) && Leads(s, v) && v.ndis == Beyond(s)
  {
    v := AloneEnds(s, t);
    var states :| Steps(states, t) && states[0] == s && states[|states| - 1] == v;
    StepsLead(states, t, |states| - 1);
    NoneLinked(v);
  }

  /** The first step of a cleanup leaves the ports as they are if and only if there are none. */
  lemma SweepSparesIff(s: State, t: nat)
    requires t < |s.threads| && s.threads[t].Cleaning? && !s.broken
    ensures Sweep(s, t).ports == s.ports && !Sweep(s, t).broken <==> s.ports == []
  {
    var n := Idle(s.ports);
    if n == 0 && s.ports != [] {
      assert s.ports[0..] == s.ports;
    }
  }

  lemma BusyFirst(s: State, t: nat)
    requires t < |s.threads| && s.ports != [] && Busy(s.ports[0])
    ensures Sweep(s, t) == s.(broken := true)
  {
    assert Idle(s.ports) == 0 && s.ports[0..] == s.ports;
  }

  // ---- What a transition leaves ---------------------------------------------------------------

  /** The state in which a finished transition leaves its port: activated if NDIS agreed to activate or
      refused to deactivate, and otherwise allocated. */
  function Left(x: Thread, ok: bool): PortState
    requires x.Starting? || x.Stopping?
  {
    match x
    case Starting(_) => if ok then Activated else Allocated
    case Stopping(_) => if ok then Allocated else Activated
  }

  /** When the owner takes the lock again, the port of its number gets the state that NDIS's answer calls for,
      no other port changes, and its transition is over. */
  lemma TransitionEnds(s: State, e: Event, t: State)
    requires Reachable(s) && (e.ActivateEnd? || e.DeactivateEnd?) && ApplyEnd(s, e) == Some(t)
    ensures e.thread < |s.threads| && (if e.ActivateEnd? then s.threads[e.thread].Starting? else s.threads[e.thread].Stopping?)
    ensures var x := s.threads[e.thread];
      && Port(x.number, Left(x, e.ok)) in t.ports && |t.ports| == |s.ports|
      && (forall i :: 0 <= i < |t.ports| ==>
            t.ports[i] == if s.ports[i].number == x.number then Port(x.number, Left(x, e.ok)) else s.ports[i])
      && t == s.(ports := t.ports, threads := s.threads[e.thread := Finished])
  {
    ReachableInv(s);
    var x := s.threads[e.thread];
    FindDistinct(s.ports, Port(x.number, Marked(x)));
    var at := Find(s.ports, x.number, 0).value;
    assert t.ports[at] == Port(x.number, Left(x, e.ok));
  }

  // ---- Uninterrupted operations are runs ------------------------------------------------------

  /** What a table shows after a port is asked to move between two states. */
  predicate Moved(before: seq<Port>, number: nat, from: PortState, to: PortState, ok: bool, after: seq<Port>) {
    var at := Find(before, number, 0);
    after == if at.Some? && before[at.value].state == from && ok then SetState(before, at.value, to) else before
  }

  lemma {:induction false} FindKept(ports: seq<Port>, i: nat, state: PortState, number: nat, from: nat)
    requires i < |ports| && from <= |ports|
    ensures Find(SetState(ports, i, state), number, from) == Find(ports, number, from)
    decreases |ports| - from
  {
    if from < |ports| {
      FindKept(ports, i, state, number, from + 1);
    }
  }

  lemma ActivateIsRun(s: State, number: nat, ok: bool) returns (t: State)
    requires !s.broken
    ensures Leads(s, t) && !t.broken && t.ndis == s.ndis && Moved(s.ports, number, Allocated, Activated, ok, t.ports)
  {
    Stays(s);
    var at := Find(s.ports, number, 0);
    if at.Some? && s.ports[at.value].state == Allocated {
      var u := s.(ports := SetState(s.ports, at.value, Activating), threads := s.threads + [Starting(number)]);
      LeadsOn(s, s, ActivateBegin(number), u);
      FindKept(s.ports, at.value, Activating, number, 0);
      var to := if ok then Activated else Allocated;
      t := u.(ports := SetState(s.ports, at.value, to), threads := u.threads[|s.threads| := Finished]);
      SetTwice(s.ports, at.value, Activating, to);
      LeadsOn(s, u, ActivateEnd(|s.threads|, ok), t);
    } else {
      t := s;
    }
  }

  lemma DeactivateIsRun(s: State, number: nat, ok: bool) returns (t: State)
    requires !s.broken
    ensures Leads(s, t) && !t.broken && t.ndis == s.ndis && Moved(s.ports, number, Activated, Allocated, ok, t.ports)
  {
    Stays(s);
    var at := Find(s.ports, number, 0);
    if at.Some? && s.ports[at.value].state == Activated {
      var u := s.(ports := SetState(s.ports, at.value, Deactivating), threads := s.threads + [Stopping(number)]);
      LeadsOn(s, s, DeactivateBegin(number), u);
      FindKept(s.ports, at.value, Deactivating, number, 0);
      var to := if ok then Allocated else Activated;
      t := u.(ports := SetState(s.ports, at.value, to), threads := u.threads[|s.threads| := Finished]);
      SetTwice(s.ports, at.value, Deactivating, to);
      LeadsOn(s, u, DeactivateEnd(|s.threads|, ok), t);
    } else {
      t := s;
    }
  }

  lemma AllocateIsRun(s: State, number: nat) returns (t: State)
    requires !s.broken && number !in s.ndis
    ensures Leads(s, t) && !t.broken && t.ports == s.ports + [Port(number, Allocated)] && t.ndis == s.ndis + {number}
  {
    Stays(s);
    var u := s.(ndis := s.ndis + {number}, threads := s.threads + [Adding(number)]);
    LeadsOn(s, s, AllocateBegin(number), u);
    t := u.(ports := s.ports + [Port(number, Allocated)], threads := u.threads[|s.threads| := Finished]);
    LeadsOn(s, u, AllocateEnd(|s.threads|), t);
  }

  lemma FreeIsRun(s: State, number: nat, ok: bool) returns (t: State)
    requires !s.broken
    ensures Leads(s, t) && !t.broken
    ensures var at := Find(s.ports, number, 0);
      if at.Some? && s.ports[at.value].state == Allocated && ok then t.ports == Unlink(s.ports, at.value) && t.ndis == s.ndis - {number}
      else t.ports == s.ports && t.ndis == s.ndis
  {
    Stays(s);
    t := ApplyFree(s, Free(number, ok)).value;
    LeadsOn(s, s, Free(number, ok), t);
  }

  /** A cleanup that starts with no transition in flight. */
  lemma CleanupIsRun(s: State) returns (t: State)
    requires Inv(s) && !s.broken && forall u :: 0 <= u < |s.threads| ==> !InFlight(s.threads[u])
    ensures Leads(s, t) && !t.broken && t.ports == [] && t.ndis == Beyond(s)
  {
    var u := s.(threads := s.threads + [Cleaning]);
    StepKeepsInv(s, CleanupBegin, u);
    Stays(s);
    LeadsOn(s, s, CleanupBegin, u);
    t := CleanupEnds(u, |s.threads|);
    LeadsTwice(s, u, t);
    assert Beyond(u) == Beyond(s);
  }

  /** A port can be activated. */
  lemma PortIsActivated() returns (s: State)
    ensures Reachable(s) && s.ports == [Port(1, Activated)]
  {
    Stays(INITIAL);
    var s1 := AllocateIsRun(INITIAL, 1);
    s := ActivateIsRun(s1, 1, true);
    assert s1.ports == [Port(1, Allocated)];
    LeadsTwice(INITIAL, s1, s);
  }

  // ---- The port table -------------------------------------------------------------------------

  lemma SetTwice(ports: seq<Port>, i: nat, via: PortState, to: PortState)
    requires i < |ports|
    ensures SetState(SetState(ports, i, via), i, to) == SetState(ports, i, to)
    ensures to == ports[i].state ==> SetState(ports, i, to) == ports
    ensures DistinctNumbers(ports) ==> DistinctNumbers(SetState(ports, i, to))
  {
  }

  /** The port part of an ADAPTER_CONTEXT, for operations that nothing interleaves with. */
  class PortTable {
    var ports: seq<Port>
    var ndis: set<nat>

    ghost predicate Valid()
      reads this
    {
      DistinctNumbers(ports) && forall i :: 0 <= i < |ports| ==> ports[i].number in ndis
    }

    constructor ()
      ensures Valid() && ports == [] && ndis == {}
    {
      ports, ndis := [], {};
    }

    method FindPortEntry(number: nat) returns (at: Option<nat>)
      ensures at == Find(ports, number, 0)
    {
      for i := 0 to |ports|
        invariant Find(ports, number, 0) == Find(ports, number, i)
      {
        if ports[i].number == number {
          return Some(i);
        }
      }
      return None;
    }

    /** Moves a port between two states, through the one that marks the transition. */
    method Move(number: nat, from: PortState, via: PortState, to: PortState, ok: bool) returns (moved: bool)
      requires Valid()
      modifies this`ports
      ensures Valid()
      ensures moved <==> Find(old(ports), number, 0).Some? && old(ports)[Find(old(ports), number, 0).value].state == from && ok
      ensures ports == if moved then SetState(old(ports), Find(old(ports), number, 0).value, to) else old(ports)
    {
      var at := FindPortEntry(number);
      if at.None? || ports[at.value].state != from {
        return false;
      }
      ports := SetState(ports, at.value, via);
      ports := SetState(ports, at.value, if ok then to else from);
      SetTwice(old(ports), at.value, via, if ok then to else from);
      return ok;
    }

    /** The machine shows the same ports, with no transition in flight. */
    ghost predicate Mirrors(s: State)
      reads this
    {
      s.ports == ports && s.ndis == ndis && !s.broken
    }

    /** MpIrpActivatePort. */
    method ActivatePort(number: nat, ok: bool, ghost s: State) returns (moved: bool, ghost t: State)
      requires Valid() && Mirrors(s)
      modifies this`ports
      ensures Valid() && Leads(s, t) && Mirrors(t)
      ensures moved <==> Find(old(ports), number, 0).Some? && old(ports)[Find(old(ports), number, 0).value].state == Allocated && ok
    {
      moved := Move(number, Allocated, Activating, Activated, ok);
      t := ActivateIsRun(s, number, ok);
    }

    /** MpIrpDeactivatePort. */
    method DeactivatePort(number: nat, ok: bool, ghost s: State) returns (moved: bool, ghost t: State)
      requires Valid() && Mirrors(s)
      modifies this`ports
      ensures Valid() && Leads(s, t) && Mirrors(t)
      ensures moved <==> Find(old(ports), number, 0).Some? && old(ports)[Find(old(ports), number, 0).value].state == Activated && ok
    {
      moved := Move(number, Activated, Deactivating, Allocated, ok);
      t := DeactivateIsRun(s, number, ok);
    }

    /** MpIrpAllocatePort with the number that NDIS gave, if it gave one. */
    method AllocatePort(number: Option<nat>, ghost s: State) returns (ghost t: State)
      requires Valid() && Mirrors(s) && (number.Some? ==> number.value !in ndis)
      modifies this
      ensures Valid() && Leads(s, t) && Mirrors(t)
      ensures ports == old(ports) + if number.Some? then [Port(number.value, Allocated)] else []
    {
      if number.None? {
        Stays(s);
        t := s;
        assert ports + [] == ports;
        return;
      }
      ndis := ndis + {number.value};
      ports := ports + [Port(number.value, Allocated)];
      t := AllocateIsRun(s, number.value);
    }

    /** MpIrpFreePort. */
    method FreePort(number: nat, ok: bool, ghost s: State) returns (freed: bool, ghost t: State)
      requires Valid() && Mirrors(s)
      modifies this
      ensures Valid() && Leads(s, t) && Mirrors(t)
      ensures freed <==> Find(old(ports), number, 0).Some? && old(ports)[Find(old(ports), number, 0).value].state == Allocated && ok
      ensures ports == if freed then Unlink(old(ports), Find(old(ports), number, 0).value) else old(ports)
      ensures ndis == if freed then old(ndis) - {number} else old(ndis)
    {
      t := FreeIsRun(s, number, ok);
      var at := FindPortEntry(number);
      if at.None? || ports[at.value].state != Allocated || !ok {
        return false, t;
      }
      ports := Unlink(ports, at.value);
      ndis := ndis - {number};
      return true, t;
    }

    /** One round of the cleanup loop. */
    method FreeFirst()
      requires Valid() && ports != [] && !Busy(ports[0])
      modifies this
      ensures Valid() && ports == old(ports)[1..] && ndis == old(ndis) - {old(ports)[0].number}
    {
      var number := ports[0].number;
      if ports[0].state == Activated {
        ports := SetState(ports, 0, Deactivating);
        ports := SetState(ports, 0, Allocated);
      }
      assert ports[1..] == old(ports)[1..];
      ports := ports[1..];
      ndis := ndis - {number};
    }

    /** MpPortCleanup: every port is deactivated if need be and freed. */
    method PortCleanup(ghost s: State) returns (ghost t: State)
      requires Valid() && Mirrors(s) && Inv(s) && forall u :: 0 <= u < |s.threads| ==> !InFlight(s.threads[u])
      modifies this
      ensures ports == [] && Leads(s, t) && Mirrors(t)
      ensures forall x :: x in ndis <==> x in old(ndis) && !Linked(old(ports), x)
    {
      assert forall i :: 0 <= i < |ports| ==> !Busy(ports[i]);
      ghost var all, done := ports, 0;
      while ports != []
        invariant Valid() && done <= |all| && ports == all[done..]
        invariant ndis == Released(old(ndis), all, done)
        decreases |all| - done
      {
        assert ports[0] == all[done] && ports[1..] == all[done + 1..];
        FreeFirst();
        done := done + 1;
      }
      ReleasedAll(old(ndis), all);
      t := CleanupIsRun(s);
      assert ndis == Beyond(s);
    }
  }
}
