/**
  The relay with its service process: the get/run/post loop of src/isr/svc/main.cpp on top of
  the driver. The process is the only user of the service handle and is single-threaded; it
  waits for each GET to complete. It may be stopped (its GET is cancelled) or restarted at
  any point where it is not inside a GET.
 */
module RelayDaemon {
  import opened Bytes
  import opened Relay

  datatype Daemon =
    | Idle                          // about to issue a GET
    | InGet(irp: nat)               // waiting for the GET to complete
    | Working(request: Request)     // running the command it was given

  datatype System = System(driver: State, daemon: Daemon)

  datatype SystemEvent =
    | Driver(e: Event)              // any step of the driver or its other callers
    | IssueGet
    | GetReturned
    | IssuePost(result: int)
    | Restart                       // the process exits and a new one starts

  function Step(s: System, x: SystemEvent): Option<System> {
    match x
    case Driver(e) =>
      if e.GetStart? || e.Post? then None
      else
        (match Apply(s.driver, e)
         case None => None
         case Some(t) => Some(s.(driver := t)))
    case IssueGet =>
      if s.daemon != Idle then None
      else Some(System(Apply(s.driver, GetStart).value, InGet(|s.driver.irps|)))
    case GetReturned =>
      if !s.daemon.InGet? || s.daemon.irp >= |s.driver.irps| || s.driver.irps[s.daemon.irp].completions == [] then None
      else
        var irp := s.driver.irps[s.daemon.irp];
        if irp.completions[0] == Success && irp.output.Some? then Some(s.(daemon := Working(irp.output.value)))
        else Some(s.(daemon := Idle))
    case IssuePost(result) =>
      if !s.daemon.Working? then None
      else
        (match Apply(s.driver, Post(s.daemon.request.id, result))
         case None => None
         case Some(t) => Some(System(t, Idle)))
    case Restart => if s.daemon.InGet? then None else Some(s.(daemon := Idle))
  }

  function Run(s: System, events: seq<SystemEvent>): Option<System>
    decreases |events|
  {
    if events == [] then Some(s)
    else
      match Step(s, events[0])
      case None => None
      case Some(t) => Run(t, events[1..])
  }

  predicate IsStart(s: System) {
    s.driver == INITIAL && s.daemon == Idle
  }

  // ---------------------------------------------------------------- invariant

  predicate Finished(irp: Irp) {
    |irp.completions| == 1
  }

  /** The IRP has been, or is bound to be, completed with success. */
  predicate Succeeds(irp: Irp) {
    irp.returning == Some(Success) || irp.owed || (irp.completions != [] && irp.completions[0] == Success)
  }

  /** A GET that succeeds carries the outstanding request. */
  predicate Carries(s: State, irp: Irp) {
    Succeeds(irp) ==> irp.output.Some? && s.pendingRequest == irp.output
  }

  predicate Sound(s: System) {
    && Inv(s.driver)
    && (forall i {:trigger s.driver.irps[i]} ::
          0 <= i < |s.driver.irps| && s.daemon != InGet(i) ==> Finished(s.driver.irps[i]))
    && match s.daemon
       case Idle => true
       case InGet(i) => i < |s.driver.irps| && Carries(s.driver, s.driver.irps[i])
       case Working(r) => s.driver.pendingRequest == Some(r)
  }

  /** A finished IRP is nobody's: it is not pended, not held, and its fields no longer change. */
  lemma FinishedIsAlone(s: State, i: nat)
    requires Inv(s) && i < |s.irps| && Finished(s.irps[i])
    ensures !s.irps[i].entering && !s.irps[i].routine && s.irps[i].cancelPhase == NotCalled
    ensures s.irps[i].returning.None? && !s.irps[i].owed
    ensures s.pendingIrp != Some(i)
    ensures s.holder != GetPopping(i) && s.holder != GetPending(i) && s.holder != GetChecking(i) && s.holder != GetUnsetting(i)
    ensures s.holder.NotifyExchanging? ==> s.holder.irp != i
  {
    assert Owners(s, i) == 1;
  }

  lemma FinishedNotify(s: State, e: Event, t: State, i: nat)
    requires Inv(s) && IsNotify(e) && ApplyNotify(s, e) == Some(t) && i < |s.irps| && Finished(s.irps[i])
    ensures i < |t.irps| && t.irps[i].completions == s.irps[i].completions
  {
    FinishedIsAlone(s, i);
  }

  lemma FinishedGet(s: State, e: Event, t: State, i: nat)
    requires Inv(s) && IsGet(e) && ApplyGet(s, e) == Some(t) && i < |s.irps| && Finished(s.irps[i])
    ensures i < |t.irps| && t.irps[i].completions == s.irps[i].completions
  {
    FinishedIsAlone(s, i);
  }

  lemma FinishedCancel(s: State, e: Event, t: State, i: nat)
    requires Inv(s) && IsCancel(e) && ApplyCancel(s, e) == Some(t) && i < |s.irps| && Finished(s.irps[i])
    ensures i < |t.irps| && t.irps[i].completions == s.irps[i].completions
  {
    FinishedIsAlone(s, i);
  }

  lemma FinishedStays(s: State, e: Event, t: State, i: nat)
    requires Inv(s) && Apply(s, e) == Some(t) && i < |s.irps| && Finished(s.irps[i])
    ensures i < |t.irps| && Finished(t.irps[i])
  {
    if IsNotify(e) {
      FinishedNotify(s, e, t, i);
    } else if IsGet(e) {
      FinishedGet(s, e, t, i);
    } else if IsCancel(e) {
      FinishedCancel(s, e, t, i);
    } else {
      assert t.irps == s.irps;
    }
  }

  predicate AllFinishedBut(s: State, j: nat) {
    forall i {:trigger s.irps[i]} :: 0 <= i < |s.irps| && i != j ==> Finished(s.irps[i])
  }

  /** Whoever pops, pops for the one unfinished IRP. */
  lemma PopIsFor(s: State, j: nat)
    requires Inv(s) && AllFinishedBut(s, j)
    ensures s.pendingIrp.Some? ==> s.pendingIrp == Some(j)
    ensures s.holder.GetPopping? ==> s.holder.irp == j
    ensures s.holder.NotifyExchanging? ==> s.holder.irp == j
  {
    forall i: nat | i < |s.irps| && i != j
      ensures s.pendingIrp != Some(i) && s.holder != GetPopping(i) && !(s.holder.NotifyExchanging? && s.holder.irp == i)
    {
      FinishedIsAlone(s, i);
    }
  }

  /** The outstanding request changes only when a GET handler or the notifier pops for an
      unfinished IRP, or at a POST. */
  lemma PendingStays(s: State, e: Event, t: State)
    requires Inv(s) && Apply(s, e) == Some(t) && !e.Post?
    requires AllFinishedBut(s, |s.irps|)
    ensures t.pendingRequest == s.pendingRequest
  {
    PopIsFor(s, |s.irps|);
    if IsNotify(e) {
      PendingNotify(s, e, t);
    } else if IsGet(e) {
      PendingGet(s, e, t);
    }
  }

  lemma PendingNotify(s: State, e: Event, t: State)
    requires IsNotify(e) && ApplyNotify(s, e) == Some(t)
    requires HolderSound(s) && PendingSound(s) && (s.pendingIrp.Some? ==> s.pendingIrp == Some(|s.irps|))
    ensures t.pendingRequest == s.pendingRequest
  {
  }

  lemma PendingGet(s: State, e: Event, t: State)
    requires IsGet(e) && ApplyGet(s, e) == Some(t)
    requires HolderSound(s) && (s.holder.GetPopping? ==> s.holder.irp == |s.irps|)
    ensures t.pendingRequest == s.pendingRequest
  {
  }

  lemma CarriesNotify(s: State, e: Event, t: State, j: nat)
    requires Inv(s) && IsNotify(e) && ApplyNotify(s, e) == Some(t) && j < |s.irps|
    requires AllFinishedBut(s, j) && Carries(s, s.irps[j])
    ensures j < |t.irps| && Carries(t, t.irps[j])
  {
    PopIsFor(s, j);
    assert Owners(s, j) == 1;
    if e.NotifyComplete? && s.pushers[e.p].phase.irp != j {
      FinishedIsAlone(s, s.pushers[e.p].phase.irp);
    }
  }

  lemma CarriesGet(s: State, e: Event, t: State, j: nat)
    requires Inv(s) && IsGet(e) && !e.GetStart? && ApplyGet(s, e) == Some(t) && j < |s.irps|
    requires AllFinishedBut(s, j) && Carries(s, s.irps[j])
    ensures j < |t.irps| && Carries(t, t.irps[j])
  {
    PopIsFor(s, j);
    assert Owners(s, j) == 1;
  }

  lemma CarriesCancel(s: State, e: Event, t: State, j: nat)
    requires Inv(s) && IsCancel(e) && ApplyCancel(s, e) == Some(t) && j < |s.irps|
    requires Carries(s, s.irps[j])
    ensures j < |t.irps| && Carries(t, t.irps[j])
  {
    assert Owners(s, j) == 1;
  }

  lemma CarriesStep(s: State, e: Event, t: State, j: nat)
    requires Inv(s) && !e.GetStart? && !e.Post? && Apply(s, e) == Some(t) && j < |s.irps|
    requires AllFinishedBut(s, j) && Carries(s, s.irps[j])
    ensures j < |t.irps| && Carries(t, t.irps[j])
  {
    if IsNotify(e) {
      CarriesNotify(s, e, t, j);
    } else if IsGet(e) {
      CarriesGet(s, e, t, j);
    } else if IsCancel(e) {
      CarriesCancel(s, e, t, j);
    } else {
      assert t.irps == s.irps && t.pendingRequest == s.pendingRequest;
    }
  }

  lemma DriverStepSound(s: System, e: Event, t: State)
    requires Sound(s) && !e.GetStart? && !e.Post? && Apply(s.driver, e) == Some(t)
    ensures Sound(s.(driver := t))
  {
    StepKeepsInv(s.driver, e, t);
    IrpCount(s.driver, e, t);
    forall i: nat | i < |t.irps| && s.daemon != InGet(i)
      ensures Finished(t.irps[i])
    {
      FinishedStays(s.driver, e, t, i);
    }
    if s.daemon.InGet? {
      CarriesStep(s.driver, e, t, s.daemon.irp);
    } else if s.daemon.Working? {
      PendingStays(s.driver, e, t);
    }
  }

  lemma IrpCount(s: State, e: Event, t: State)
    requires !e.GetStart? && Apply(s, e) == Some(t)
    ensures |t.irps| == |s.irps|
  {
  }

  lemma IssueGetSound(s: System, t: System)
    requires Sound(s) && Step(s, IssueGet) == Some(t)
    ensures Sound(t)
  {
    StepKeepsInv(s.driver, GetStart, t.driver);
  }

  lemma GetReturnedSound(s: System, t: System)
    requires Sound(s) && Step(s, GetReturned) == Some(t)
    ensures Sound(t)
  {
    CompletedOnce(s.driver, s.daemon.irp);
  }

  lemma CompletedOnce(s: State, i: nat)
    requires Inv(s) && i < |s.irps|
    ensures |s.irps[i].completions| <= 1
  {
    assert Owners(s, i) == 1;
  }

  lemma IssuePostSound(s: System, result: int, t: System)
    requires Sound(s) && Step(s, IssuePost(result)) == Some(t)
    ensures Sound(t)
  {
    StepKeepsInv(s.driver, Post(s.daemon.request.id, result), t.driver);
  }

  lemma StepSound(s: System, x: SystemEvent, t: System)
    requires Sound(s) && Step(s, x) == Some(t)
    ensures Sound(t)
  {
    match x
    case Driver(e) => DriverStepSound(s, e, t.driver);
    case IssueGet => IssueGetSound(s, t);
    case GetReturned => GetReturnedSound(s, t);
    case IssuePost(result) => IssuePostSound(s, result, t);
    case Restart =>
  }

  lemma {:induction false} RunSound(s: System, events: seq<SystemEvent>)
    requires Sound(s) && Run(s, events).Some?
    ensures Sound(Run(s, events).value)
    decreases |events|
  {
    if events != [] {
      StepSound(s, events[0], Step(s, events[0]).value);
      RunSound(Step(s, events[0]).value, events[1..]);
    }
  }

  ghost predicate ReachableFrom(s0: System, s: System) {
    exists events :: Run(s0, events) == Some(s)
  }

  ghost predicate Reachable(s: System) {
    exists s0 :: IsStart(s0) && ReachableFrom(s0, s)
  }

  lemma IdleSound(s: System)
    requires Inv(s.driver) && s.driver.irps == [] && s.daemon == Idle
    ensures Sound(s)
  {
  }

  lemma StartSound(s0: System)
    requires IsStart(s0)
    ensures Sound(s0)
  {
    assert Inv(s0.driver) by {
      InitialInv();
    }
    IdleSound(s0);
  }

  lemma ReachableFromSound(s0: System, s: System)
    requires Sound(s0) && ReachableFrom(s0, s)
    ensures Sound(s)
  {
    var events :| Run(s0, events) == Some(s);
    RunSound(s0, events);
  }

  lemma ReachableSound(s: System)
    requires Reachable(s)
    ensures Sound(s)
  {
    var s0 :| IsStart(s0) && ReachableFrom(s0, s);
    StartSound(s0);
    ReachableFromSound(s0, s);
  }

  // ---------------------------------------------------------------- theorems

  /** In every run, whenever the loop is about to post, the driver has a pending request and it
      is the one whose command the loop ran; the POST takes it and records the result under it. */
  lemma PostFindsItsRequest(s: System, result: int)
    requires Reachable(s) && s.daemon.Working?
    ensures s.driver.pendingRequest == Some(s.daemon.request)
    ensures s.driver.holder == Free ==>
              && Step(s, IssuePost(result)).Some?
              && var t := Step(s, IssuePost(result)).value.driver;
                 t.pendingRequest.None? && t.posted == s.driver.posted + [Posted(s.daemon.request, result, Taken)]
  {
    ReachableSound(s);
  }

  /** From every reachable state in which the service has run a command and the driver's lock is free, with a
      live client, posting leads to the delivery of the command's own request with the command's result. */
  lemma PostDelivers(s: System, result: int) returns (t: System)
    requires Reachable(s) && s.daemon.Working? && s.driver.holder == Free && LiveClient(s.driver)
    ensures ReachableFrom(s, t) && t.daemon == Idle && t.driver.pendingRequest.None?
    ensures t.driver.posted == s.driver.posted + [Posted(s.daemon.request, result, Delivered)]
  {
    ReachableSound(s);
    assert Run(s, []) == Some(s);
    var taken := s.driver.(pendingRequest := None, posted := s.driver.posted + [Posted(s.daemon.request, result, Taken)]);
    ExtendFrom(s, s, IssuePost(result), System(taken, Idle));
    t := Calls(s, System(taken, Idle), s.driver.posted, Posted(s.daemon.request, result, Taken));
  }

  /** The last posted result is delivered to a live client. */
  lemma Calls(s0: System, s: System, posted: seq<Posted>, x: Posted) returns (t: System)
    requires ReachableFrom(s0, s) && s.driver.posted == posted + [x] && x.fate == Taken && LiveClient(s.driver)
    ensures ReachableFrom(s0, t) && t == s.(driver := s.driver.(posted := posted + [x.(fate := Delivered)]))
  {
    var calling := s.(driver := s.driver.(posted := posted + [x.(fate := Calling)], client := AcquireRef(s.driver.client)));
    LastEntry(posted, x, x.(fate := Calling));
    ExtendFrom(s0, s, Driver(ClientAcquire(|posted|)), calling);
    t := s.(driver := s.driver.(posted := posted + [x.(fate := Delivered)]));
    LastEntry(posted, x.(fate := Calling), x.(fate := Delivered));
    ExtendFrom(s0, calling, Driver(ClientCallback(|posted|)), t);
  }

  lemma LastEntry(posted: seq<Posted>, x: Posted, y: Posted)
    ensures (posted + [x])[|posted|] == x && (posted + [x])[|posted| := y] == posted + [y]
  {
  }

  /** `r` is outstanding in the driver but the service process neither has it nor will get it. */
  predicate Stranded(s: System, r: Request) {
    && Sound(s)
    && s.driver.pendingRequest == Some(r)
    && !s.daemon.Working?
    && (s.daemon.InGet? ==> !Succeeds(s.driver.irps[s.daemon.irp]))
    && (s.driver.holder.NotifyExchanging? ==> !s.driver.irps[s.driver.holder.irp].routine)
  }

  /** While a request is outstanding nothing is popped. */
  lemma NoPopWhileOutstanding(s: State)
    requires Inv(s) && s.pendingRequest.Some?
    ensures s.pendingIrp.None? && !s.holder.GetPopping? && !s.holder.GetPending? && !s.holder.GetChecking? && !s.holder.GetUnsetting?
    ensures !s.holder.NotifyPopping?
  {
  }

  /** The driver-level part of being stranded, for the IRP `j` the process may be waiting on. */
  predicate Lost(s: State, j: nat, r: Request) {
    && s.pendingRequest == Some(r)
    && (j < |s.irps| ==> Owners(s, j) == 1 && !Succeeds(s.irps[j]))
    && (s.holder.NotifyExchanging? && s.holder.irp < |s.irps| ==> !s.irps[s.holder.irp].routine)
  }

  lemma LostNotify(s: State, e: Event, t: State, j: nat, r: Request)
    requires Inv(s) && Lost(s, j, r) && IsNotify(e) && ApplyNotify(s, e) == Some(t)
    ensures t.pendingRequest == Some(r)
    ensures j < |s.irps| ==> !Succeeds(t.irps[j])
    ensures t.holder.NotifyExchanging? && t.holder.irp < |t.irps| ==> !t.irps[t.holder.irp].routine
  {
    NoPopWhileOutstanding(s);
  }

  lemma LostGet(s: State, e: Event, t: State, j: nat, r: Request)
    requires Inv(s) && Lost(s, j, r) && IsGet(e) && !e.GetStart? && ApplyGet(s, e) == Some(t)
    ensures t.pendingRequest == Some(r)
    ensures j < |s.irps| ==> !Succeeds(t.irps[j])
    ensures t.holder.NotifyExchanging? && t.holder.irp < |t.irps| ==> !t.irps[t.holder.irp].routine
  {
    NoPopWhileOutstanding(s);
  }

  lemma LostCancel(s: State, e: Event, t: State, j: nat, r: Request)
    requires Inv(s) && Lost(s, j, r) && IsCancel(e) && ApplyCancel(s, e) == Some(t)
    ensures t.pendingRequest == Some(r)
    ensures j < |s.irps| ==> !Succeeds(t.irps[j])
    ensures t.holder.NotifyExchanging? && t.holder.irp < |t.irps| ==> !t.irps[t.holder.irp].routine
  {
  }

  lemma LostStep(s: State, e: Event, t: State, j: nat, r: Request)
    requires Inv(s) && Lost(s, j, r) && !e.GetStart? && !e.Post? && Apply(s, e) == Some(t)
    ensures t.pendingRequest == Some(r)
    ensures j < |s.irps| && j < |t.irps| ==> !Succeeds(t.irps[j])
    ensures t.holder.NotifyExchanging? && t.holder.irp < |t.irps| ==> !t.irps[t.holder.irp].routine
  {
    if IsNotify(e) {
      LostNotify(s, e, t, j, r);
    } else if IsGet(e) {
      LostGet(s, e, t, j, r);
    } else if IsCancel(e) {
      LostCancel(s, e, t, j, r);
    } else {
      assert t.irps == s.irps && t.pendingRequest == s.pendingRequest && t.holder == s.holder;
    }
  }

  /** Once stranded, a request stays stranded in every continuation: every later GET is refused
      and the request is never posted. */
  lemma StrandedStep(s: System, x: SystemEvent, t: System, r: Request)
    requires Stranded(s, r) && Step(s, x) == Some(t)
    ensures Stranded(t, r)
  {
    StepSound(s, x, t);
    NoPopWhileOutstanding(s.driver);
    match x
    case Driver(e) =>
      var j := if s.daemon.InGet? then s.daemon.irp else |s.driver.irps|;
      if s.daemon.InGet? {
        assert Owners(s.driver, j) == 1;
      }
      LostStep(s.driver, e, t.driver, j, r);
    case IssueGet =>
    case GetReturned =>
    case IssuePost(result) =>
    case Restart =>
  }

  lemma {:induction false} StrandedForever(s: System, r: Request, events: seq<SystemEvent>)
    requires Stranded(s, r) && Run(s, events).Some?
    ensures Stranded(Run(s, events).value, r)
    ensures var t := Run(s, events).value.driver;
            r !in PostedRequests(t.posted)
    decreases |events|
  {
    if events == [] {
      NotYetPosted(s.driver, r);
    } else {
      StrandedStep(s, events[0], Step(s, events[0]).value, r);
      StrandedForever(Step(s, events[0]).value, r, events[1..]);
    }
  }

  lemma NotYetPosted(s: State, r: Request)
    requires Inv(s) && s.pendingRequest == Some(r)
    ensures r !in PostedRequests(s.posted)
  {
    var done := PostedRequests(s.posted);
    assert s.accepted[|done|] == r;
    forall k | 0 <= k < |done|
      ensures done[k] != r
    {
      assert s.accepted[k] == done[k];
    }
  }

  // ---------------------------------------------------------------- how a request is stranded

  /** The steps that strand `r`: the notifier pops it for an IRP whose cancel routine was already taken;
      the cancel routine is taken between the notifier's pop and its exchange; or the process goes away
      while it runs the command. */
  predicate Strands(s: System, x: SystemEvent, r: Request) {
    var d := s.driver;
    match x
    case Driver(NotifyPop) =>
      && d.queue != [] && d.queue[0] == r
      && d.pendingIrp.Some? && d.pendingIrp.value < |d.irps| && !d.irps[d.pendingIrp.value].routine
    case Driver(CancelExchange(i)) =>
      && d.pendingRequest == Some(r) && d.holder.NotifyExchanging? && d.holder.irp == i
      && i < |d.irps| && d.irps[i].routine
    case Restart => s.daemon == Working(r)
    case _ => false
  }

  /** Outstanding, and neither with the process nor still on its way to it. */
  predicate Adrift(d: State, j: Option<nat>, r: Request) {
    && d.pendingRequest == Some(r)
    && (j.Some? && j.value < |d.irps| ==> !Succeeds(d.irps[j.value]))
    && (d.holder.NotifyExchanging? && d.holder.irp < |d.irps| ==> !d.irps[d.holder.irp].routine)
  }

  function Awaited(s: System): Option<nat> {
    if s.daemon.InGet? then Some(s.daemon.irp) else None
  }

  /** Every unfinished IRP is the awaited one. */
  predicate OnlyAwaited(d: State, j: Option<nat>) {
    && (forall i {:trigger d.irps[i]} :: 0 <= i < |d.irps| && j != Some(i) ==> Finished(d.irps[i]))
    && (j.Some? ==> j.value < |d.irps|)
  }

  lemma AwaitedIsSole(d: State, j: Option<nat>)
    requires Inv(d) && OnlyAwaited(d, j)
    ensures d.pendingIrp.Some? ==> j == d.pendingIrp
    ensures d.holder.GetPopping? ==> j == Some(d.holder.irp)
    ensures d.holder.NotifyExchanging? ==> j == Some(d.holder.irp)
  {
    PopIsFor(d, if j.Some? then j.value else |d.irps|);
  }

  lemma AdriftNotify(d: State, e: Event, t: State, j: Option<nat>, r: Request)
    requires Inv(d) && OnlyAwaited(d, j) && IsNotify(e) && ApplyNotify(d, e) == Some(t)
    requires !Adrift(d, j, r)
    ensures Adrift(t, j, r) <==>
      && e.NotifyPop? && d.queue != [] && d.queue[0] == r
      && d.pendingIrp.Some? && d.pendingIrp.value < |d.irps| && !d.irps[d.pendingIrp.value].routine
  {
    AwaitedIsSole(d, j);
    if j.Some? {
      assert Owners(d, j.value) == 1;
    }
    if e.NotifyComplete? && j != Some(d.pushers[e.p].phase.irp) {
      FinishedIsAlone(d, d.pushers[e.p].phase.irp);
    }
  }

  lemma AdriftGet(d: State, e: Event, t: State, j: Option<nat>, r: Request)
    requires Inv(d) && OnlyAwaited(d, j) && IsGet(e) && !e.GetStart? && ApplyGet(d, e) == Some(t)
    requires !Adrift(d, j, r)
    ensures !Adrift(t, j, r)
  {
    AwaitedIsSole(d, j);
    if j.Some? {
      assert Owners(d, j.value) == 1;
    }
  }

  lemma AdriftCancel(d: State, e: Event, t: State, j: Option<nat>, r: Request)
    requires Inv(d) && OnlyAwaited(d, j) && IsCancel(e) && ApplyCancel(d, e) == Some(t)
    requires !Adrift(d, j, r)
    ensures Adrift(t, j, r) <==>
      && e.CancelExchange? && d.pendingRequest == Some(r)
      && d.holder.NotifyExchanging? && d.holder.irp == e.i && e.i < |d.irps| && d.irps[e.i].routine
  {
    AwaitedIsSole(d, j);
    if j.Some? {
      assert Owners(d, j.value) == 1;
    }
  }

  lemma AdriftStep(s: System, e: Event, t: State, r: Request)
    requires Inv(s.driver) && OnlyAwaited(s.driver, Awaited(s)) && !e.GetStart? && !e.Post?
    requires Apply(s.driver, e) == Some(t) && !Adrift(s.driver, Awaited(s), r)
    ensures Adrift(t, Awaited(s), r) <==> Strands(s, Driver(e), r)
  {
    if IsNotify(e) {
      AdriftNotify(s.driver, e, t, Awaited(s), r);
    } else if IsGet(e) {
      AdriftGet(s.driver, e, t, Awaited(s), r);
    } else if IsCancel(e) {
      AdriftCancel(s.driver, e, t, Awaited(s), r);
    } else {
      assert t.irps == s.driver.irps && t.pendingRequest == s.driver.pendingRequest && t.holder == s.driver.holder;
    }
  }

  lemma StrandedIsAdrift(s: System, r: Request)
    requires Sound(s)
    ensures OnlyAwaited(s.driver, Awaited(s))
    ensures Stranded(s, r) <==> !s.daemon.Working? && Adrift(s.driver, Awaited(s), r)
  {
  }

  /** While the process runs a command the driver keeps that request and hands out no other. */
  lemma WorkingStep(s: System, e: Event, t: State, r: Request)
    requires Sound(s) && s.daemon.Working? && !e.GetStart? && !e.Post? && Apply(s.driver, e) == Some(t)
    ensures !Strands(s, Driver(e), r)
  {
    AwaitedIsSole(s.driver, None);
  }

  /** Over every step of the whole system: a request that is not stranded becomes stranded on exactly the
      three kinds of step above. */
  lemma StrandedIff(s: System, x: SystemEvent, t: System, r: Request)
    requires Sound(s) && Step(s, x) == Some(t) && !Stranded(s, r)
    ensures Stranded(t, r) <==> Strands(s, x, r)
  {
    StepSound(s, x, t);
    StrandedIsAdrift(s, r);
    StrandedIsAdrift(t, r);
    AwaitedIsSole(s.driver, Awaited(s));
    match x
    case Driver(e) =>
      if s.daemon.Working? {
        WorkingStep(s, e, t.driver, r);
      } else {
        AdriftStep(s, e, t.driver, r);
      }
    case IssueGet =>
    case GetReturned =>
      assert Owners(s.driver, s.daemon.irp) == 1;
    case IssuePost(result) =>
    case Restart =>
  }

  /** At the notifier's exchange: the request is stranded exactly when the cancel routine had already been
      taken from the IRP; otherwise the GET will deliver it. */
  lemma StrandedIffCancelled(s: System, t: System, r: Request)
    requires Sound(s) && s.daemon.InGet? && s.driver.holder.NotifyExchanging?
    requires s.driver.pendingRequest == Some(r) && Step(s, Driver(NotifyExchange)) == Some(t)
    ensures s.driver.holder.irp == s.daemon.irp
    ensures Stranded(t, r) <==> !s.driver.irps[s.daemon.irp].routine
    ensures !Stranded(t, r) ==> t.driver.irps[s.daemon.irp].owed && t.driver.irps[s.daemon.irp].output == Some(r)
  {
    StepSound(s, Driver(NotifyExchange), t);
    PopIsFor(s.driver, s.daemon.irp);
    assert Owners(s.driver, s.daemon.irp) == 1;
  }

  /** Some step of the run strands `r`. */
  predicate EverStrands(s: System, events: seq<SystemEvent>, r: Request)
    requires Run(s, events).Some?
    decreases |events|
  {
    events != [] && (Strands(s, events[0], r) || EverStrands(Step(s, events[0]).value, events[1..], r))
  }

  /** So a request is stranded at the end of a run if and only if such a step occurred in it. */
  lemma {:induction false} StrandedInRunIff(s: System, events: seq<SystemEvent>, r: Request)
    requires Sound(s) && !Stranded(s, r) && Run(s, events).Some?
    ensures Stranded(Run(s, events).value, r) <==> EverStrands(s, events, r)
    decreases |events|
  {
    if events != [] {
      var t := Step(s, events[0]).value;
      StepSound(s, events[0], t);
      StrandedIff(s, events[0], t, r);
      if Stranded(t, r) {
        StrandedForever(t, r, events[1..]);
      } else {
        StrandedInRunIff(t, events[1..], r);
      }
    }
  }

  // ---------------------------------------------------------------- runs that strand a request

  lemma {:induction false} SystemRunSnoc(s: System, events: seq<SystemEvent>, x: SystemEvent)
    requires Run(s, events).Some?
    ensures Run(s, events + [x]) == Step(Run(s, events).value, x)
    decreases |events|
  {
    if events == [] {
      assert Run(s, [x]) == match Step(s, x) case None => None case Some(t) => Run(t, [x][1..]);
    } else {
      assert (events + [x])[1..] == events[1..] + [x];
      SystemRunSnoc(Step(s, events[0]).value, events[1..], x);
    }
  }

  lemma ExtendFrom(s0: System, s: System, x: SystemEvent, t: System)
    requires ReachableFrom(s0, s) && Step(s, x) == Some(t)
    ensures ReachableFrom(s0, t)
  {
    var events :| Run(s0, events) == Some(s);
    SystemRunSnoc(s0, events, x);
    assert Run(s0, events + [x]) == Some(t);
  }

  lemma SystemExtend(s: System, x: SystemEvent, t: System)
    requires Reachable(s) && Step(s, x) == Some(t)
    ensures Reachable(t)
  {
    var s0 :| IsStart(s0) && ReachableFrom(s0, s);
    ExtendFrom(s0, s, x, t);
  }

  lemma Drives(s: System, e: Event, t: State)
    requires Reachable(s) && !e.GetStart? && !e.Post? && Apply(s.driver, e) == Some(t)
    ensures Reachable(s.(driver := t))
  {
    SystemExtend(s, Driver(e), s.(driver := t));
  }

  lemma OpenSystem() returns (s: System)
    ensures Reachable(s) && s == System(INITIAL.(service := OPEN), Idle)
  {
    var s0 := System(INITIAL, Idle);
    assert Run(s0, []) == Some(s0);
    assert IsStart(s0) && ReachableFrom(s0, s0);
    s := System(INITIAL.(service := OPEN), Idle);
    Drives(s0, ServiceOpen, s.driver);
  }

  /** The first GET holds the lock and is about to pop. */
  lemma FirstGet(s: System) returns (t: System)
    requires Reachable(s) && s.daemon == Idle && s.driver.irps == [] && s.driver.holder == Free
    requires s.driver.pendingIrp.None? && s.driver.pendingRequest.None?
    ensures Reachable(t) && t.daemon == InGet(0)
    ensures t.driver == s.driver.(irps := [NEW_IRP.(entering := false)], holder := GetPopping(0))
  {
    Singletons<Irp>();
    var u := System(s.driver.(irps := [NEW_IRP]), InGet(0));
    SystemExtend(s, IssueGet, u);
    t := u.(driver := s.driver.(irps := [NEW_IRP.(entering := false)], holder := GetPopping(0)));
    Drives(u, GetLock(0), t.driver);
  }

  /** The first push inserts into an empty queue. */
  lemma FirstPush(s: System) returns (t: System)
    requires Reachable(s) && s.driver.service == OPEN && s.driver.queue == [] && s.driver.pushers == []
    requires s.driver.nextId == 0 && s.driver.accepted == []
    ensures Reachable(t) && t.daemon == s.daemon
    ensures t.driver == s.driver.(queue := [ASK], pushers := [Pusher(ASK, MustNotify)], nextId := 1, accepted := [ASK], service := HELD)
  {
    Singletons<Pusher>();
    Singletons<Request>();
    var u := s.(driver := s.driver.(pushers := [Pusher(ASK, Inserting)], nextId := 1));
    Drives(s, PushStart("a"), u.driver);
    t := s.(driver := s.driver.(queue := [ASK], pushers := [Pusher(ASK, MustNotify)], nextId := 1, accepted := [ASK], service := HELD));
    Drives(u, PushInsert(0), t.driver);
  }

  /** The service goes away while it runs a command: no cancellation is involved. */
  lemma RestartStrands() returns (s: System)
    ensures Reachable(s) && Stranded(s, ASK)
  {
    var s1 := OpenSystem();
    var s2 := FirstPush(s1);
    var s3 := FirstGet(s2);
    Singletons<Irp>();
    Singletons<Request>();
    var s4 := s3.(driver := s2.driver.(irps := [SERVED], queue := [], pendingRequest := Some(ASK)));
    Drives(s3, GetPop, s4.driver);
    var s5 := AnswerTaken(s4);
    s := s5.(daemon := Idle);
    SystemExtend(s5, Restart, s);
    ReachableSound(s5);
    StrandedIff(s5, Restart, s, ASK);
  }

  lemma AnswerTaken(s: System) returns (t: System)
    requires Reachable(s) && s.daemon == InGet(0) && s.driver.irps == [SERVED]
    ensures Reachable(t) && t.daemon == Working(ASK)
  {
    Singletons<Irp>();
    Singletons<Status>();
    var answered := SERVED.(returning := None, completions := [Success]);
    var u := s.(driver := s.driver.(irps := [answered]));
    Drives(s, InlineComplete(0), u.driver);
    t := u.(daemon := Working(ASK));
    SystemExtend(u, GetReturned, t);
  }

  /** The service is stopped while it waits: the cancel routine is taken just before the notifier pops. */
  lemma CancelStrands() returns (s: System)
    ensures Reachable(s) && Stranded(s, ASK)
  {
    var s1 := OpenSystem();
    var s2 := FirstGet(s1);
    var s3 := FirstPends(s2);
    var s4 := FirstPush(s3);
    var s5 := s4.(driver := s4.driver.(holder := NotifyPopping(0)));
    Drives(s4, NotifyLock(0), s5.driver);
    var s6 := FirstCancelled(s5);
    s := s6.(driver := Apply(s6.driver, NotifyPop).value);
    Drives(s6, NotifyPop, s.driver);
    ReachableSound(s6);
    StrandedIff(s6, Driver(NotifyPop), s, ASK);
  }

  lemma FirstPends(s: System) returns (t: System)
    requires Reachable(s) && s.driver.irps == [NEW_IRP.(entering := false)] && s.driver.holder == GetPopping(0) && s.driver.queue == []
    ensures Reachable(t) && t.daemon == s.daemon
    ensures t.driver == s.driver.(irps := [PENDED], pendingIrp := Some(0), holder := Free)
  {
    var u := s.(driver := s.driver.(holder := GetPending(0)));
    Drives(s, GetPop, u.driver);
    t := FirstLinked(u);
  }

  lemma FirstLinked(s: System) returns (t: System)
    requires Reachable(s) && s.driver.irps == [NEW_IRP.(entering := false)] && s.driver.holder == GetPending(0)
    ensures Reachable(t) && t.daemon == s.daemon
    ensures t.driver == s.driver.(irps := [PENDED], pendingIrp := Some(0), holder := Free)
  {
    Singletons<Irp>();
    var u := s.(driver := s.driver.(irps := [PENDED], pendingIrp := Some(0), holder := GetChecking(0)));
    Drives(s, GetPend, u.driver);
    t := s.(driver := s.driver.(irps := [PENDED], pendingIrp := Some(0), holder := Free));
    Drives(u, GetCheck, t.driver);
  }

  lemma FirstCancelled(s: System) returns (t: System)
    requires Reachable(s) && s.driver.irps == [PENDED]
    ensures Reachable(t) && t.daemon == s.daemon
    ensures t.driver == s.driver.(irps := [PENDED.(cancel := true, routine := false, cancelPhase := Called)])
  {
    Singletons<Irp>();
    var u := s.(driver := s.driver.(irps := [PENDED.(cancel := true)]));
    Drives(s, CancelMark(0), u.driver);
    t := s.(driver := s.driver.(irps := [PENDED.(cancel := true, routine := false, cancelPhase := Called)]));
    Drives(u, CancelExchange(0), t.driver);
  }
}
