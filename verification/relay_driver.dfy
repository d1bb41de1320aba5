/** The relay driver's handlers over its global variables, as they run when nothing interleaves. Each is
    a run of the protocol, so what holds of every run holds of the driver. */
module RelayDriver {
  import opened Bytes
  import opened Relay

  /** sizeof(ISR_GET_OUTPUT) and sizeof(ISR_POST_INPUT). */
  const GET_OUTPUT_SIZE := 1032
  const POST_INPUT_SIZE := 16

  datatype GetOutcome = GetInvalid | Returned(status: Status) | Pended

  datatype PostOutcome = PostInvalid | NotFound | Accepted

  /** When the I/O manager cancels a GET: not at all, before its dispatch, or while the handler has set
      the cancel routine and not yet looked at the Cancel flag. */
  datatype Cancellation = NotCancelled | CancelledBefore | CancelledBetween

  /** A GET that got past its entry, and whether its Cancel flag is set. */
  function IdleIrp(cancel: bool): Irp {
    NEW_IRP.(entering := false, cancel := cancel)
  }

  lemma Begin(s: State)
    ensures ReachableFrom(s, s)
  {
    assert Run(s, []) == Some(s);
  }

  lemma LastUpdate<T>(s: seq<T>, x: T, y: T)
    ensures (s + [x])[|s|] == x && (s + [x])[|s| := y] == s + [y]
  {
  }

  /** A GET arrives, possibly cancelled already. */
  lemma GetArrives(s: State, cancel: bool, t: State)
    requires t == s.(irps := s.irps + [NEW_IRP.(cancel := cancel)])
    ensures ReachableFrom(s, t)
  {
    var s1 := s.(irps := s.irps + [NEW_IRP]);
    Begin(s);
    Extend(s, s, GetStart, s1);
    if cancel {
      LastUpdate(s.irps, NEW_IRP, NEW_IRP.(cancel := true));
      Extend(s, s1, CancelMark(|s.irps|), t);
    }
  }

  /** A GET enters and holds the lock. */
  lemma GetLocks(s: State, cancel: bool, t: State)
    requires s.holder == Free && s.pendingIrp.None? && s.pendingRequest.None?
    requires t == s.(irps := s.irps + [IdleIrp(cancel)], holder := GetPopping(|s.irps|))
    ensures ReachableFrom(s, t)
  {
    var s1 := s.(irps := s.irps + [NEW_IRP.(cancel := cancel)]);
    GetArrives(s, cancel, s1);
    LastUpdate(s.irps, NEW_IRP.(cancel := cancel), IdleIrp(cancel));
    Extend(s, s1, GetLock(|s.irps|), t);
  }

  /** The last IRP's dispatch routine completes it. */
  lemma Completes(s0: State, s: State, irps: seq<Irp>, irp: Irp, status: Status, t: State)
    requires ReachableFrom(s0, s) && s.irps == irps + [irp.(returning := Some(status))]
    requires irp.returning.None? && irp.completions == []
    requires t == s.(irps := irps + [irp.(completions := [status])])
    ensures ReachableFrom(s0, t)
  {
    LastUpdate(irps, irp.(returning := Some(status)), irp.(completions := [status]));
    Singletons<Status>();
    assert Complete(irp, status) == irp.(completions := [status]);
    Extend(s0, s, InlineComplete(|irps|), t);
  }

  lemma GetServed(s: State, cancel: bool, t: State)
    requires s.holder == Free && s.pendingIrp.None? && s.pendingRequest.None? && s.queue != []
    requires t == s.(irps := s.irps + [IdleIrp(cancel).(output := Some(s.queue[0]), completions := [Success])],
                     queue := s.queue[1..], pendingRequest := Some(s.queue[0]))
    ensures ReachableFrom(s, t)
  {
    var s2 := s.(irps := s.irps + [IdleIrp(cancel)], holder := GetPopping(|s.irps|));
    GetLocks(s, cancel, s2);
    var served := IdleIrp(cancel).(output := Some(s.queue[0]));
    var s3 := t.(irps := s.irps + [served.(returning := Some(Success))]);
    LastUpdate(s.irps, IdleIrp(cancel), served.(returning := Some(Success)));
    Extend(s, s2, GetPop, s3);
    Completes(s, s3, s.irps, served, Success, t);
  }

  /** A GET that finds the queue empty has linked its IRP and set the cancel routine. */
  lemma GetLinks(s: State, cancel: bool, t: State)
    requires s.holder == Free && s.pendingIrp.None? && s.pendingRequest.None? && s.queue == []
    requires t == s.(irps := s.irps + [IdleIrp(cancel).(routine := true)], pendingIrp := Some(|s.irps|), holder := GetChecking(|s.irps|))
    ensures ReachableFrom(s, t)
  {
    var i := |s.irps|;
    var s2 := s.(irps := s.irps + [IdleIrp(cancel)], holder := GetPopping(i));
    GetLocks(s, cancel, s2);
    var s3 := s2.(holder := GetPending(i));
    Extend(s, s2, GetPop, s3);
    LastUpdate(s.irps, IdleIrp(cancel), IdleIrp(cancel).(routine := true));
    Extend(s, s3, GetPend, t);
  }

  lemma GetWaits(s: State, t: State)
    requires s.holder == Free && s.pendingIrp.None? && s.pendingRequest.None? && s.queue == []
    requires t == s.(irps := s.irps + [IdleIrp(false).(routine := true)], pendingIrp := Some(|s.irps|))
    ensures ReachableFrom(s, t)
  {
    var s4 := t.(holder := GetChecking(|s.irps|));
    GetLinks(s, false, s4);
    Extend(s, s4, GetCheck, t);
  }

  /** The handler finds the Cancel flag set and takes its routine back. */
  lemma GetCancelled(s: State, t: State)
    requires s.holder == Free && s.pendingIrp.None? && s.pendingRequest.None? && s.queue == []
    requires t == s.(irps := s.irps + [IdleIrp(true).(completions := [Cancelled])])
    ensures ReachableFrom(s, t)
  {
    var i, linked := |s.irps|, IdleIrp(true).(routine := true);
    var s4 := s.(irps := s.irps + [linked], pendingIrp := Some(i), holder := GetChecking(i));
    GetLinks(s, true, s4);
    var s5 := s4.(holder := GetUnsetting(i));
    Extend(s, s4, GetCheck, s5);
    var s6 := s.(irps := s.irps + [IdleIrp(true).(returning := Some(Cancelled))]);
    LastUpdate(s.irps, linked, IdleIrp(true).(returning := Some(Cancelled)));
    Extend(s, s5, GetUnset, s6);
    Completes(s, s6, s.irps, IdleIrp(true), Cancelled, t);
  }

  /** The I/O manager has taken the routine first, so the cancel routine will complete the IRP. */
  lemma GetLosesRoutine(s: State, t: State)
    requires s.holder == Free && s.pendingIrp.None? && s.pendingRequest.None? && s.queue == []
    requires t == s.(irps := s.irps + [IdleIrp(true).(cancelPhase := Called)], pendingIrp := Some(|s.irps|))
    ensures ReachableFrom(s, t)
  {
    var i, linked := |s.irps|, IdleIrp(true).(routine := true);
    var s4 := s.(irps := s.irps + [linked], pendingIrp := Some(i), holder := GetChecking(i));
    GetLinks(s, true, s4);
    var s5 := t.(holder := GetChecking(i));
    LastUpdate(s.irps, linked, IdleIrp(true).(cancelPhase := Called));
    Extend(s, s4, CancelExchange(i), s5);
    var s6 := t.(holder := GetUnsetting(i));
    Extend(s, s5, GetCheck, s6);
    Extend(s, s6, GetUnset, t);
  }

  lemma GetRefused(s: State, cancel: bool, t: State)
    requires s.holder == Free && (s.pendingIrp.Some? || s.pendingRequest.Some?)
    requires t == s.(irps := s.irps + [IdleIrp(cancel).(completions := [Refused])])
    ensures ReachableFrom(s, t)
  {
    var s1 := s.(irps := s.irps + [NEW_IRP.(cancel := cancel)]);
    GetArrives(s, cancel, s1);
    var refused := IdleIrp(cancel).(returning := Some(Refused));
    var s2 := s.(irps := s.irps + [refused]);
    LastUpdate(s.irps, NEW_IRP.(cancel := cancel), refused);
    Extend(s, s1, GetLock(|s.irps|), s2);
    Completes(s, s2, s.irps, IdleIrp(cancel), Refused, t);
  }

  /** A push that is accepted, up to the point where it notifies or releases. */
  lemma PushInserted(s: State, command: string, r: Request, phase: PushPhase, t: State)
    requires s.holder == Free && s.service.registered && !s.service.closing && r == Request(s.nextId + 1, command)
    requires phase == if s.queue == [] then MustNotify else MustRelease
    requires t == s.(nextId := s.nextId + 1, pushers := s.pushers + [Pusher(r, phase)], queue := s.queue + [r],
                     accepted := s.accepted + [r], service := AcquireRef(s.service))
    ensures ReachableFrom(s, t)
  {
    var s1 := s.(nextId := s.nextId + 1, pushers := s.pushers + [Pusher(r, Inserting)]);
    Begin(s);
    Extend(s, s, PushStart(command), s1);
    LastUpdate(s.pushers, Pusher(r, Inserting), Pusher(r, phase));
    Extend(s, s1, PushInsert(|s.pushers|), t);
  }

  lemma PushReleased(s0: State, s: State, p: nat, t: State)
    requires ReachableFrom(s0, s) && p < |s.pushers| && s.pushers[p].phase == MustRelease && s.service.refs > 0
    requires t == s.(pushers := s.pushers[p := s.pushers[p].(phase := PushDone)], service := ReleaseRef(s.service))
    ensures ReachableFrom(s0, t)
  {
    Extend(s0, s, PushRelease(p), t);
  }

  /** The notifier of a push finds no IRP, or no request. */
  lemma NotifyIdles(s0: State, s: State, p: nat, t: State)
    requires ReachableFrom(s0, s) && s.holder == Free && p < |s.pushers| && s.pushers[p].phase == MustNotify
    requires s.pendingIrp.None? || s.queue == []
    requires t == s.(pushers := s.pushers[p := s.pushers[p].(phase := MustRelease)])
    ensures ReachableFrom(s0, t)
  {
    if s.pendingIrp.None? {
      Extend(s0, s, NotifyLock(p), t);
    } else {
      Extend(s0, s, NotifyLock(p), s.(holder := NotifyPopping(p)));
      Extend(s0, s.(holder := NotifyPopping(p)), NotifyPop, t);
    }
  }

  /** What becomes of the IRP: completed with success, unless its cancel routine was already taken. */
  function Notified(irp: Irp, r: Request): Irp {
    if irp.routine then Complete(irp.(output := Some(r), routine := false, owed := false), Success)
    else irp.(output := Some(r))
  }

  /** The notifier of a push gives the pended IRP the oldest request. */
  lemma NotifyServes(s0: State, s: State, p: nat, i: nat, t: State)
    requires ReachableFrom(s0, s) && s.holder == Free && p < |s.pushers| && s.pushers[p].phase == MustNotify
    requires s.pendingIrp == Some(i) && i < |s.irps| && s.queue != []
    requires t == s.(irps := s.irps[i := Notified(s.irps[i], s.queue[0])],
                     pushers := s.pushers[p := s.pushers[p].(phase := MustRelease)],
                     queue := s.queue[1..], pendingIrp := None, pendingRequest := Some(s.queue[0]))
    ensures ReachableFrom(s0, t)
  {
    Extend(s0, s, NotifyLock(p), s.(holder := NotifyPopping(p)));
    var taken := s.irps[i].(output := Some(s.queue[0]));
    var s2 := s.(irps := s.irps[i := taken], queue := s.queue[1..], pendingIrp := None,
                 pendingRequest := Some(s.queue[0]), holder := NotifyExchanging(p, i));
    Extend(s0, s.(holder := NotifyPopping(p)), NotifyPop, s2);
    if s.irps[i].routine {
      NotifyCompletes(s0, s2, t);
    } else {
      Extend(s0, s2, NotifyExchange, t);
    }
  }

  lemma NotifyCompletes(s0: State, s: State, t: State)
    requires ReachableFrom(s0, s) && s.holder.NotifyExchanging? && s.holder.pusher < |s.pushers| && s.holder.irp < |s.irps|
    requires s.irps[s.holder.irp].routine
    requires t == s.(irps := s.irps[s.holder.irp := Complete(s.irps[s.holder.irp].(routine := false, owed := false), Success)],
                     pushers := s.pushers[s.holder.pusher := s.pushers[s.holder.pusher].(phase := MustRelease)], holder := Free)
    ensures ReachableFrom(s0, t)
  {
    var i, p := s.holder.irp, s.holder.pusher;
    var s1 := s.(irps := s.irps[i := s.irps[i].(routine := false, owed := true)],
                 pushers := s.pushers[p := s.pushers[p].(phase := MustComplete(i))], holder := Free);
    Extend(s0, s, NotifyExchange, s1);
    assert s1.irps[i := t.irps[i]] == t.irps && s1.pushers[p := t.pushers[p]] == t.pushers;
    Extend(s0, s1, NotifyComplete(p), t);
  }

  /** A posted result is delivered, or dropped when there is no client. */
  lemma Answered(s0: State, s: State, k: nat, fate: Fate, t: State)
    requires ReachableFrom(s0, s) && k < |s.posted| && s.posted[k].fate == Taken
    requires fate == if s.client.registered && !s.client.closing then Delivered else Dropped
    requires t == s.(posted := s.posted[k := s.posted[k].(fate := fate)])
    ensures ReachableFrom(s0, t)
  {
    if fate == Dropped {
      Extend(s0, s, ClientAcquire(k), t);
    } else {
      var u := s.(posted := s.posted[k := s.posted[k].(fate := Calling)], client := AcquireRef(s.client));
      Extend(s0, s, ClientAcquire(k), u);
      assert u.posted[k := u.posted[k].(fate := Delivered)] == t.posted;
      Extend(s0, u, ClientCallback(k), t);
    }
  }

  /** The cancel routine runs for an IRP. */
  lemma CancelRuns(s: State, i: nat, t: State)
    requires s.holder == Free && i < |s.irps| && s.irps[i].cancelPhase == Called
    requires t == s.(irps := s.irps[i := Complete(s.irps[i].(cancelPhase := NotCalled), Cancelled)],
                     pendingIrp := if s.pendingIrp == Some(i) then None else s.pendingIrp)
    ensures ReachableFrom(s, t)
  {
    Begin(s);
    var u := t.(irps := s.irps[i := s.irps[i].(cancelPhase := Unlinked)]);
    Extend(s, s, CancelUnlink(i), u);
    assert u.irps[i := t.irps[i]] == t.irps;
    Extend(s, u, CancelComplete(i), t);
  }

  /** A side registers, and deregisters when none of its callbacks runs. */
  lemma Registers(s: State, service: bool, t: State)
    requires if service then !s.service.registered else !s.client.registered
    requires t == if service then s.(service := OPEN) else s.(client := OPEN)
    ensures ReachableFrom(s, t)
  {
    Begin(s);
    Extend(s, s, if service then ServiceOpen else ClientOpen, t);
  }

  lemma ServiceLeaves(s: State, t: State)
    requires s.service.registered && s.service.refs == 0
    requires t == s.(service := s.service.(registered := false, closing := true))
    ensures ReachableFrom(s, t)
  {
    Begin(s);
    var u := s.(service := s.service.(closing := true));
    Extend(s, s, ServiceClose, u);
    Extend(s, u, ServiceClosed, t);
  }

  lemma ClientLeaves(s: State, t: State)
    requires s.client.registered && s.client.refs == 0
    requires t == s.(client := s.client.(registered := false, closing := true))
    ensures ReachableFrom(s, t)
  {
    Begin(s);
    var u := s.(client := s.client.(closing := true));
    Extend(s, s, ClientClose, u);
    Extend(s, u, ClientClosed, t);
  }

  /** The driver's global variables. */
  class Driver {
    var queue: seq<Request>
    var pendingIrp: Option<nat>
    var pendingRequest: Option<Request>
    var irps: seq<Irp>
    var pushers: seq<Pusher>
    var nextId: nat
    var posted: seq<Posted>
    var service: Registration
    var client: Registration
    ghost var accepted: seq<Request>

    ghost function View(): State
      reads this
    {
      State(queue, pendingIrp, pendingRequest, Free, irps, pushers, nextId, posted, service, client, accepted)
    }

    constructor ()
      ensures View() == INITIAL
    {
      queue, pendingIrp, pendingRequest, irps, pushers, nextId, posted := [], None, None, [], [], 0, [];
      service, client, accepted := CLOSED, CLOSED, [];
    }

    /** RqServicePopRequest. */
    method PopRequest() returns (r: Option<Request>)
      modifies this`queue
      ensures r == if old(queue) == [] then None else Some(old(queue)[0])
      ensures queue == if old(queue) == [] then [] else old(queue)[1..]
    {
      if queue == [] {
        return None;
      }
      r := Some(queue[0]);
      queue := queue[1..];
    }

    /** ServiceIrpGet: invalid if the output is too short; refused while an IRP is pended or a request is
        out; otherwise it takes the oldest request, or waits unless it was cancelled. */
    method IrpGet(outputLength: nat, cancellation: Cancellation) returns (outcome: GetOutcome)
      modifies this
      ensures outcome == if outputLength < GET_OUTPUT_SIZE then GetInvalid
                         else if old(pendingIrp).Some? || old(pendingRequest).Some? then Returned(Refused)
                         else if old(queue) != [] then Returned(Success)
                         else if cancellation == CancelledBefore then Returned(Cancelled) else Pended
      ensures outcome == GetInvalid ==> View() == old(View())
      ensures outcome == Returned(Refused) || outcome == Returned(Cancelled) ==>
        queue == old(queue) && pendingIrp == old(pendingIrp) && pendingRequest == old(pendingRequest)
      ensures outcome == Returned(Success) ==> queue == old(queue)[1..] && pendingRequest == Some(old(queue)[0]) && pendingIrp == None
      ensures outcome == Pended ==> queue == [] && pendingRequest == None && pendingIrp == Some(old(|irps|))
      ensures outcome.Returned? ==> |irps| == old(|irps|) + 1 && irps[old(|irps|)].completions == [outcome.status]
      ensures outcome == Pended ==> |irps| == old(|irps|) + 1 && irps[old(|irps|)].completions == []
                                    && (irps[old(|irps|)].routine <==> cancellation == NotCancelled)
      ensures ReachableFrom(old(View()), View())
    {
      ghost var s := View();
      if outputLength < GET_OUTPUT_SIZE {
        Begin(s);
        return GetInvalid;
      }
      var before := cancellation == CancelledBefore;
      if pendingIrp.Some? || pendingRequest.Some? {
        irps := irps + [IdleIrp(before).(completions := [Refused])];
        GetRefused(s, before, View());
        return Returned(Refused);
      }
      var r := PopRequest();
      if r.Some? {
        pendingRequest := r;
        irps := irps + [IdleIrp(before).(output := r, completions := [Success])];
        GetServed(s, before, View());
        return Returned(Success);
      }
      outcome := Pend(s, cancellation);
    }

    /** The part of ServiceIrpGet that pends the IRP. */
    method Pend(ghost s: State, cancellation: Cancellation) returns (outcome: GetOutcome)
      requires s == View() && queue == [] && pendingIrp.None? && pendingRequest.None?
      modifies this`pendingIrp, this`irps
      ensures outcome == if cancellation == CancelledBefore then Returned(Cancelled) else Pended
      ensures pendingIrp == if outcome == Pended then Some(old(|irps|)) else None
      ensures |irps| == old(|irps|) + 1 && irps[old(|irps|)].completions == if outcome == Pended then [] else [Cancelled]
      ensures outcome == Pended ==> (irps[old(|irps|)].routine <==> cancellation == NotCancelled)
      ensures ReachableFrom(s, View())
    {
      match cancellation
      case NotCancelled =>
        pendingIrp := Some(|irps|);
        irps := irps + [IdleIrp(false).(routine := true)];
        GetWaits(s, View());
        return Pended;
      case CancelledBefore =>
        irps := irps + [IdleIrp(true).(completions := [Cancelled])];
        GetCancelled(s, View());
        return Returned(Cancelled);
      case CancelledBetween =>
        pendingIrp := Some(|irps|);
        irps := irps + [IdleIrp(true).(cancelPhase := Called)];
        GetLosesRoutine(s, View());
        return Pended;
    }

    /** ServiceIrpPost: the outstanding request, which must exist, is handed to the client side when the id
        is its own, and its result is delivered if there is a client. */
    method IrpPost(inputLength: nat, id: nat, result: int) returns (outcome: PostOutcome)
      requires inputLength >= POST_INPUT_SIZE ==> pendingRequest.Some?
      modifies this`pendingRequest, this`posted, this`client
      ensures client == old(client)
      ensures outcome == PostInvalid <==> inputLength < POST_INPUT_SIZE
      ensures outcome == Accepted <==> inputLength >= POST_INPUT_SIZE && old(pendingRequest).value.id == id
      ensures outcome == Accepted ==> pendingRequest == None
      ensures outcome == Accepted ==>
        posted == old(posted) + [Posted(old(pendingRequest).value, result, if client.registered && !client.closing then Delivered else Dropped)]
      ensures outcome != Accepted ==> pendingRequest == old(pendingRequest) && posted == old(posted)
      ensures ReachableFrom(old(View()), View())
    {
      ghost var s := View();
      Begin(s);
      if inputLength < POST_INPUT_SIZE {
        return PostInvalid;
      }
      if pendingRequest.value.id != id {
        return NotFound;
      }
      posted := posted + [Posted(pendingRequest.value, result, Taken)];
      pendingRequest := None;
      Extend(s, s, Post(id, result), View());
      CompleteRequest(s, |posted| - 1);
      return Accepted;
    }

    /** RqServiceCompleteRequest: the client's callback gets the result unless the client is gone or going. */
    method CompleteRequest(ghost s0: State, k: nat)
      requires ReachableFrom(s0, View()) && k < |posted| && posted[k].fate == Taken
      modifies this`posted, this`client
      ensures client == old(client) && ReachableFrom(s0, View())
      ensures posted == old(posted)[k := old(posted)[k].(fate := if client.registered && !client.closing then Delivered else Dropped)]
    {
      ghost var s := View();
      if !client.registered || client.closing {
        posted := posted[k := posted[k].(fate := Dropped)];
      } else {
        client := AcquireRef(client);
        posted := posted[k := posted[k].(fate := Delivered)];
        client := ReleaseRef(client);
      }
      Answered(s0, s, k, posted[k].fate, View());
    }

    /** ServiceCancelGet, called by the I/O manager with the routine already taken. */
    method CancelGet(i: nat)
      requires i < |irps| && irps[i].cancelPhase == Called
      modifies this`irps, this`pendingIrp
      ensures irps == old(irps)[i := Complete(old(irps)[i].(cancelPhase := NotCalled), Cancelled)]
      ensures pendingIrp == if old(pendingIrp) == Some(i) then None else old(pendingIrp)
      ensures ReachableFrom(old(View()), View())
    {
      ghost var s := View();
      if pendingIrp == Some(i) {
        pendingIrp := None;
      }
      irps := irps[i := irps[i].(cancelPhase := NotCalled, completions := irps[i].completions + [Cancelled])];
      CancelRuns(s, i, View());
    }

    /** RqServiceRegister and RqClientRegister. */
    method Register(serviceSide: bool)
      requires if serviceSide then !service.registered else !client.registered
      modifies this`service, this`client
      ensures service == (if serviceSide then Registration(true, false, 0) else old(service))
      ensures client == (if serviceSide then old(client) else Registration(true, false, 0))
      ensures ReachableFrom(old(View()), View())
    {
      ghost var s := View();
      if serviceSide {
        service := Registration(true, false, 0);
      } else {
        client := Registration(true, false, 0);
      }
      Registers(s, serviceSide, View());
    }

    /** RqServiceDeregister and RqClientDeregister, when no callback has to be waited for. */
    method Deregister(serviceSide: bool)
      requires var r := if serviceSide then service else client; r.registered && r.refs == 0
      modifies this`service, this`client
      ensures serviceSide ==> !service.registered && client == old(client)
      ensures !serviceSide ==> !client.registered && service == old(service)
      ensures ReachableFrom(old(View()), View())
    {
      ghost var s := View();
      if serviceSide {
        service := service.(closing := true);
        service := service.(registered := false);
        ServiceLeaves(s, View());
      } else {
        client := client.(closing := true);
        client := client.(registered := false);
        ClientLeaves(s, View());
      }
    }

    /** RqClientPushRequest with its notification. An accepted request goes to the tail of the queue; if
        the queue was empty and a GET is pended, the GET gets it at once, and is completed unless its
        cancel routine was already taken. */
    method PushRequest(command: string) returns (ok: bool)
      requires pendingIrp.Some? ==> pendingIrp.value < |irps|
      modifies this
      ensures ok <==> old(service.registered) && !old(service.closing)
      ensures !ok ==> queue == old(queue) && pendingIrp == old(pendingIrp) && pendingRequest == old(pendingRequest)
      ensures ok && (old(queue) != [] || old(pendingIrp).None?) ==>
        queue == old(queue) + [Request(old(nextId) + 1, command)] && pendingIrp == old(pendingIrp) && pendingRequest == old(pendingRequest)
      ensures ok && old(queue) == [] && old(pendingIrp).Some? ==>
        && queue == [] && pendingIrp == None && pendingRequest == Some(Request(old(nextId) + 1, command))
        && irps == old(irps)[old(pendingIrp).value := Notified(old(irps)[old(pendingIrp).value], Request(old(nextId) + 1, command))]
      ensures !(ok && old(queue) == [] && old(pendingIrp).Some?) ==> irps == old(irps)
      ensures ReachableFrom(old(View()), View())
    {
      ghost var s := View();
      var r := Request(nextId + 1, command);
      nextId := nextId + 1;
      ok := service.registered && !service.closing;
      if !ok {
        pushers := pushers + [Pusher(r, PushDone)];
        PushRefused(s, command, View());
        return;
      }
      var wasEmpty := queue == [];
      service := AcquireRef(service);
      queue := queue + [r];
      accepted := accepted + [r];
      pushers := pushers + [Pusher(r, if wasEmpty then MustNotify else MustRelease)];
      ghost var p, inserted := |s.pushers|, View();
      PushInserted(s, command, r, inserted.pushers[p].phase, inserted);
      if wasEmpty {
        RequestAvailable(s, p);
      }
      ghost var notified := View();
      pushers := pushers[|pushers| - 1 := pushers[|pushers| - 1].(phase := PushDone)];
      service := ReleaseRef(service);
      PushReleased(s, notified, p, View());
    }

    /** ServiceRequestAvailable. */
    method RequestAvailable(ghost s0: State, ghost p: nat)
      requires ReachableFrom(s0, View()) && p == |pushers| - 1 && pushers[p].phase == MustNotify
      requires pendingIrp.Some? ==> pendingIrp.value < |irps|
      modifies this`queue, this`pendingIrp, this`pendingRequest, this`irps, this`pushers
      ensures ReachableFrom(s0, View())
      ensures pushers == old(pushers)[p := old(pushers)[p].(phase := MustRelease)]
      ensures old(pendingIrp).None? || old(queue) == [] ==>
        queue == old(queue) && pendingIrp == old(pendingIrp) && pendingRequest == old(pendingRequest) && irps == old(irps)
      ensures old(pendingIrp).Some? && old(queue) != [] ==>
        && queue == old(queue)[1..] && pendingIrp == None && pendingRequest == Some(old(queue)[0])
        && irps == old(irps)[old(pendingIrp).value := Notified(old(irps)[old(pendingIrp).value], old(queue)[0])]
    {
      ghost var s := View();
      if pendingIrp.Some? {
        var r := PopRequest();
        if r.Some? {
          var i := pendingIrp.value;
          pendingIrp := None;
          pendingRequest := r;
          irps := irps[i := Notified(irps[i], r.value)];
          pushers := pushers[|pushers| - 1 := pushers[|pushers| - 1].(phase := MustRelease)];
          NotifyServes(s0, s, p, i, View());
          return;
        }
      }
      pushers := pushers[|pushers| - 1 := pushers[|pushers| - 1].(phase := MustRelease)];
      NotifyIdles(s0, s, p, View());
    }
  }

  lemma PushRefused(s: State, command: string, t: State)
    requires !(s.service.registered && !s.service.closing)
    requires t == s.(nextId := s.nextId + 1, pushers := s.pushers + [Pusher(Request(s.nextId + 1, command), PushDone)])
    ensures ReachableFrom(s, t)
  {
    var r := Request(s.nextId + 1, command);
    var s1 := s.(nextId := s.nextId + 1, pushers := s.pushers + [Pusher(r, Inserting)]);
    Begin(s);
    Extend(s, s, PushStart(command), s1);
    LastUpdate(s.pushers, Pusher(r, Inserting), Pusher(r, PushDone));
    Extend(s, s1, PushInsert(|s.pushers|), t);
  }
}
