/** The exclusive handle of the miniport on top of its ports: one owner issues the port requests, its close
    waits for them and cleans up, and an open that is refused cleans up as well. */
module Exclusive {
  import opened Bytes
  import Ports

  /** open says that the adapter has a UserContext; closing is the thread of the owner's cleanup; refused
      counts the opens that were refused. */
  datatype System = System(ports: Ports.State, open: bool, closing: Option<nat>, refused: nat)

  datatype Event =
    | Open
    | Ioctl(e: Ports.Event)      // a port request of the owner
    | Proceed(e: Ports.Event)    // a thread takes its next step
    | Close                      // sent when the owner has no request outstanding
    | Closed

  predicate IsIoctl(e: Ports.Event) {
    e.AllocateBegin? || e.Free? || e.ActivateBegin? || e.DeactivateBegin?
  }

  predicate IsCleaner(x: Ports.Thread) {
    x.Cleaning? || x.Cleared?
  }

  predicate NoneOutstanding(threads: seq<Ports.Thread>) {
    forall t :: 0 <= t < |threads| ==> IsCleaner(threads[t]) || threads[t].Finished?
  }

  function CleanupBegun(s: Ports.State): Ports.State {
    s.(threads := s.threads + [Ports.Cleaning])
  }

  function OnPorts(s: System, e: Ports.Event): Option<System> {
    match Ports.Apply(s.ports, e)
    case None => None
    case Some(t) => Some(s.(ports := t))
  }

  function Apply(s: System, x: Event): Option<System> {
    match x
    case Open =>
      if s.open then Some(s.(ports := CleanupBegun(s.ports), refused := s.refused + 1)) else Some(s.(open := true))
    case Ioctl(e) => if s.open && s.closing.None? && IsIoctl(e) then OnPorts(s, e) else None
    case Proceed(e) => if IsIoctl(e) || e.CleanupBegin? then None else OnPorts(s, e)
    case Close =>
      if s.open && s.closing.None? && NoneOutstanding(s.ports.threads) then
        Some(s.(ports := CleanupBegun(s.ports), closing := Some(|s.ports.threads|)))
      else None
    case Closed =>
      if s.closing.Some? && s.closing.value < |s.ports.threads| && s.ports.threads[s.closing.value].Finished? then
        Some(s.(open := false, closing := None))
      else None
  }

  const INITIAL: System := System(Ports.INITIAL, false, None, 0)

  /** A run ends where a cleanup's assertion fails. */
  ghost function Run(s: System, events: seq<Event>): Option<System> {
    if events == [] then Some(s)
    else
      var t := Run(s, events[..|events| - 1]);
      if t.None? || t.value.ports.broken then None else Apply(t.value, events[|events| - 1])
  }

  ghost predicate Reachable(s: System) {
    exists events :: Run(INITIAL, events) == Some(s)
  }

  // ---- The invariant --------------------------------------------------------------------------

  predicate Unused(s: System) {
    !s.open ==> s.ports.ports == [] && s.closing.None? && AllFinishedBut(s.ports.threads, |s.ports.threads|)
  }

  predicate AllFinishedBut(threads: seq<Ports.Thread>, c: nat) {
    forall t :: 0 <= t < |threads| && t != c ==> threads[t].Finished?
  }

  /** While the owner's cleanup runs, it runs alone. */
  predicate ClosingAlone(s: System) {
    s.closing.Some? ==>
      && s.open && s.closing.value < |s.ports.threads| && AllFinishedBut(s.ports.threads, s.closing.value)
      && var x := s.ports.threads[s.closing.value]; IsCleaner(x) || (x.Finished? && s.ports.ports == [])
  }

  predicate OneCleaner(s: System) {
    forall t :: 0 <= t < |s.ports.threads| && IsCleaner(s.ports.threads[t]) ==> s.closing == Some(t)
  }

  predicate Inv(s: System) {
    Ports.Inv(s.ports) && (s.refused == 0 ==> !s.ports.broken && Unused(s) && ClosingAlone(s) && OneCleaner(s))
  }

  lemma BegunKeepsInv(s: Ports.State)
    requires Ports.Inv(s)
    ensures Ports.Inv(CleanupBegun(s))
  {
    Ports.StepKeepsInv(s, Ports.CleanupBegin, CleanupBegun(s));
  }

  lemma CleanupOwnThread(s: Ports.State, t: nat, u: Ports.State)
    requires Ports.ApplyCleanup(s, Ports.CleanupRun(t)) == Some(u)
    ensures t < |s.threads| == |u.threads| && u.threads == s.threads[t := u.threads[t]] && IsCleaner(s.threads[t])
  {
  }

  /** Without refused opens a cleanup meets no port in transition. */
  lemma CleanupProceeds(s: System, t: nat, u: Ports.State)
    requires Inv(s) && s.refused == 0 && Ports.ApplyCleanup(s.ports, Ports.CleanupRun(t)) == Some(u)
    ensures Inv(s.(ports := u))
  {
    CleanupOwnThread(s.ports, t, u);
    assert s.closing == Some(t);
    var v := Ports.AloneStep(s.ports, t);
    assert v == u;
  }

  lemma IoctlThreads(s: Ports.State, e: Ports.Event, u: Ports.State)
    requires IsIoctl(e) && Ports.Apply(s, e) == Some(u)
    ensures u.broken == s.broken && (u.threads == s.threads ||
      (|u.threads| == |s.threads| + 1 && u.threads == s.threads + [u.threads[|s.threads|]] && !IsCleaner(u.threads[|s.threads|])))
  {
  }

  lemma EndThreads(s: Ports.State, e: Ports.Event, u: Ports.State)
    requires (e.AllocateEnd? || e.ActivateEnd? || e.DeactivateEnd?) && Ports.Apply(s, e) == Some(u)
    ensures u.broken == s.broken && e.thread < |s.threads| && u.threads == s.threads[e.thread := Ports.Finished]
    ensures !IsCleaner(s.threads[e.thread]) && !s.threads[e.thread].Finished?
  {
  }

  lemma ProceedKeepsInv(s: System, e: Ports.Event, t: System)
    requires Inv(s) && !IsIoctl(e) && !e.CleanupBegin? && OnPorts(s, e) == Some(t)
    ensures Inv(t)
  {
    Ports.StepKeepsInv(s.ports, e, t.ports);
    if s.refused == 0 {
      if e.CleanupRun? {
        CleanupProceeds(s, e.thread, t.ports);
      } else {
        EndThreads(s.ports, e, t.ports);
      }
    }
  }

  lemma StepKeepsInv(s: System, x: Event, t: System)
    requires Inv(s) && Apply(s, x) == Some(t)
    ensures Inv(t)
  {
    match x
    case Open => BegunKeepsInv(s.ports);
    case Ioctl(e) =>
      Ports.StepKeepsInv(s.ports, e, t.ports);
      IoctlThreads(s.ports, e, t.ports);
    case Proceed(e) => ProceedKeepsInv(s, e, t);
    case Close => BegunKeepsInv(s.ports);
    case Closed =>
  }

  lemma {:induction false} RunKeepsInv(s: System, events: seq<Event>, t: System)
    requires Inv(s) && Run(s, events) == Some(t)
    ensures Inv(t)
    decreases |events|
  {
    if events != [] {
      var before := events[..|events| - 1];
      RunKeepsInv(s, before, Run(s, before).value);
      StepKeepsInv(Run(s, before).value, events[|events| - 1], t);
    }
  }

  lemma ReachableInv(s: System)
    requires Reachable(s)
    ensures Inv(s)
  {
    var events :| Run(INITIAL, events) == Some(s);
    RunKeepsInv(INITIAL, events, s);
  }

  // ---- What holds in every reachable state ----------------------------------------------------

  /** In every run a cleanup finds a port in transition only if some open was refused. */
  lemma BreaksOnlyIfRefused(s: System)
    requires Reachable(s) && s.ports.broken
    ensures s.refused > 0
  {
    ReachableInv(s);
  }

  /** Without refused opens every owner starts with no port and leaves none behind. */
  lemma OwnerStartsEmpty(s: System)
    requires Reachable(s) && s.refused == 0 && !s.open
    ensures s.ports.ports == [] && forall t :: 0 <= t < |s.ports.threads| ==> s.ports.threads[t].Finished?
  {
    ReachableInv(s);
  }

  /** Without refused opens the owner's cleanup, once begun, ends with no port linked and every linked number
      given back. */
  lemma CloseEnds(s: System) returns (v: Ports.State)
    requires Reachable(s) && s.refused == 0 && s.closing.Some?
    ensures Ports.Alone(s.ports, s.closing.value, v) && Ports.Emptied(v, s.closing.value) && v.ndis == Ports.Beyond(s.ports)
  {
    ReachableInv(s);
    if s.ports.threads[s.closing.value].Finished? {
      v := s.ports;
      assert Ports.Steps([v], s.closing.value);
      Ports.NoneLinked(v);
    } else {
      v := Ports.CleanupEnds(s.ports, s.closing.value);
    }
  }

  ghost predicate Leads(s: System, t: System) {
    exists events :: Run(s, events) == Some(t)
  }

  lemma Stays(s: System)
    ensures Leads(s, s)
  {
    assert Run(s, []) == Some(s);
  }

  lemma LeadsOn(s: System, t: System, x: Event, u: System)
    requires Leads(s, t) && !t.ports.broken && Apply(t, x) == Some(u)
    ensures Leads(s, u)
  {
    var events :| Run(s, events) == Some(t);
    assert (events + [x])[..|events|] == events;
    assert Run(s, events + [x]) == Some(u);
  }

  /** After k steps of the owner's cleanup. */
  lemma {:induction false} ProceedLeads(s0: System, s: System, states: seq<Ports.State>, c: nat, k: nat)
    requires Inv(s) && s.refused == 0 && Leads(s0, s)
    requires Ports.Steps(states, c) && states[0] == s.ports && k < |states|
    ensures Inv(s.(ports := states[k])) && Leads(s0, s.(ports := states[k]))
    decreases k
  {
    if k == 0 {
      assert s.(ports := states[0]) == s;
    } else {
      ProceedLeads(s0, s, states, c, k - 1);
      var t := s.(ports := states[k - 1]);
      assert Ports.StepTo(states[k - 1], c, states[k - 1 + 1]);
      CleanupProceeds(t, c, states[k]);
      LeadsOn(s0, t, Proceed(Ports.CleanupRun(c)), s.(ports := states[k]));
    }
  }

  /** Without refused opens, an owner with no request outstanding can close: its ports are freed, exactly their
      numbers are given back, and the adapter can be opened again. */
  lemma CloseIsRun(s: System) returns (t: System)
    requires Reachable(s) && s.refused == 0 && s.open && s.closing.None?
    requires forall c :: 0 <= c < |s.ports.threads| ==> s.ports.threads[c].Finished?
    ensures Leads(s, t) && !t.open && t.closing.None? && t.refused == 0
    ensures t.ports.ports == [] && t.ports.ndis == Ports.Beyond(s.ports)
    ensures Leads(s, t.(open := true))
  {
    ReachableInv(s);
    var c := |s.ports.threads|;
    var u := s.(ports := CleanupBegun(s.ports), closing := Some(c));
    Stays(s);
    LeadsOn(s, s, Close, u);
    StepKeepsInv(s, Close, u);
    assert Ports.Beyond(u.ports) == Ports.Beyond(s.ports);
    Extend(s, Close, u);
    var v := CloseEnds(u);
    var states :| Ports.Steps(states, c) && states[0] == u.ports && states[|states| - 1] == v;
    ProceedLeads(s, u, states, c, |states| - 1);
    t := u.(ports := v, open := false, closing := None);
    LeadsOn(s, u.(ports := v), Closed, t);
    LeadsOn(s, t, Open, t.(open := true));
  }

  /** The first step of a refused open's cleanup leaves the owner's ports alone if and only if none is
      linked. */
  lemma RefusedOpenSparesIff(s: System, t: System, u: System)
    requires s.open && !s.ports.broken && Apply(s, Open) == Some(t)
    requires Apply(t, Proceed(Ports.CleanupRun(|s.ports.threads|))) == Some(u)
    ensures u.ports.ports == s.ports.ports && !u.ports.broken <==> s.ports.ports == []
  {
    Ports.SweepSparesIff(t.ports, |s.ports.threads|);
  }

  /** The ports of a run of the whole are those of a run of the ports, so all that holds of the latter's
      reachable states holds here. */
  lemma {:induction false} RunOfPorts(events: seq<Event>, s: System)
    requires Run(INITIAL, events) == Some(s)
    ensures Ports.Reachable(s.ports)
    decreases |events|
  {
    if events == [] {
      assert Ports.Run(Ports.INITIAL, []) == Some(Ports.INITIAL);
    } else {
      var before, x := events[..|events| - 1], events[|events| - 1];
      var t := Run(INITIAL, before).value;
      RunOfPorts(before, t);
      if s.ports != t.ports {
        Ports.Extend(t.ports, if x.Ioctl? || x.Proceed? then x.e else Ports.CleanupBegin, s.ports);
      }
    }
  }

  // ---- A refused open that meets a transition -------------------------------------------------

  lemma Extend(s: System, x: Event, t: System)
    requires Reachable(s) && !s.ports.broken && Apply(s, x) == Some(t)
    ensures Reachable(t)
  {
    var events :| Run(INITIAL, events) == Some(s);
    assert (events + [x])[..|events|] == events;
    assert Run(INITIAL, events + [x]) == Some(t);
  }

  lemma OwnerAllocates() returns (s: System)
    ensures Reachable(s)
    ensures s == System(Ports.State([Ports.Port(1, Ports.Allocated)], [Ports.Finished], {1}, false), true, None, 0)
  {
    assert Run(INITIAL, []) == Some(INITIAL);
    var s0 := INITIAL.(open := true);
    Extend(INITIAL, Open, s0);
    var s1 := s0.(ports := Ports.State([], [Ports.Adding(1)], {1}, false));
    assert {} + {1} == {1} && [] + [Ports.Adding(1)] == [Ports.Adding(1)];
    Extend(s0, Ioctl(Ports.AllocateBegin(1)), s1);
    s := s0.(ports := Ports.State([Ports.Port(1, Ports.Allocated)], [Ports.Finished], {1}, false));
    assert [] + [Ports.Port(1, Ports.Allocated)] == s.ports.ports && [Ports.Adding(1)][0 := Ports.Finished] == [Ports.Finished];
    Extend(s1, Proceed(Ports.AllocateEnd(0)), s);
  }

  /** The owner's port is being activated; a second open is refused, and its cleanup finds the port. */
  lemma RefusedOpenMeetsTransition() returns (s: System)
    ensures Reachable(s) && s.ports.broken && s.open && s.closing.None? && s.refused == 1
  {
    var s2 := OwnerAllocates();
    var s3 := s2.(ports := Ports.State([Ports.Port(1, Ports.Activating)], [Ports.Finished, Ports.Starting(1)], {1}, false));
    assert s2.ports.ports[0 := Ports.Port(1, Ports.Activating)] == s3.ports.ports;
    assert [Ports.Finished] + [Ports.Starting(1)] == s3.ports.threads;
    Extend(s2, Ioctl(Ports.ActivateBegin(1)), s3);
    var s4 := Apply(s3, Open).value;
    Extend(s3, Open, s4);
    Ports.BusyFirst(s4.ports, 2);
    s := s4.(ports := s4.ports.(broken := true));
    Extend(s4, Proceed(Ports.CleanupRun(2)), s);
  }
}
