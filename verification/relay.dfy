/**
  The Invoke System Relay driver: src/isr/sys/service.c, requestqueue.c and client.c.

  Clients push commands; one service gets them, runs them and posts results. Two spin locks
  are involved. `Lock` of service.c guards `PendingIrp` and `PendingRequest`; `Lock` of
  requestqueue.c guards the queue and the registrations and is only ever held for one
  operation. Every event below is one atomic step of the code: a whole queue-lock section, a
  whole short section under the service lock, one interlocked exchange of a cancel routine,
  or one call out of the driver. The long sections under the service lock (the GET handler
  and the notifier) are several events, so pushes and cancellation interleave with them.
 */
module Relay {
  import opened Bytes

  // ---------------------------------------------------------------- state

  datatype Request = Request(id: nat, command: string)

  /** Final status of a GET. */
  datatype Status = Success | Refused | Cancelled

  /** How far `ServiceCancelGet` has come for an IRP whose cancel routine was called. */
  datatype CancelPhase = NotCalled | Called | Unlinked

  /** A GET IRP. `returning` is the non-pending status its dispatch thread is about to complete
      it with; `owed` is set while the notifier holds it in its local `Irp` variable. */
  datatype Irp = Irp(
    entering: bool,
    cancel: bool,
    routine: bool,
    cancelPhase: CancelPhase,
    returning: Option<Status>,
    owed: bool,
    output: Option<Request>,
    completions: seq<Status>)

  /** Who holds service.c's `Lock`, and what it does next. */
  datatype Holder =
    | Free
    | GetPopping(irp: nat)
    | GetPending(irp: nat)
    | GetChecking(irp: nat)
    | GetUnsetting(irp: nat)
    | NotifyPopping(pusher: nat)
    | NotifyExchanging(pusher: nat, irp: nat)

  datatype PushPhase = Inserting | MustNotify | MustComplete(irp: nat) | MustRelease | PushDone

  datatype Pusher = Pusher(request: Request, phase: PushPhase)

  /** Progress of `RqServiceCompleteRequest` for a posted request. */
  datatype Fate = Taken | Calling | Delivered | Dropped

  datatype Posted = Posted(request: Request, result: int, fate: Fate)

  /** `RQ_CLIENT`/`RQ_SERVICE`: a registration and its rundown protection. */
  datatype Registration = Registration(registered: bool, closing: bool, refs: nat)

  datatype State = State(
    queue: seq<Request>,
    pendingIrp: Option<nat>,
    pendingRequest: Option<Request>,
    holder: Holder,
    irps: seq<Irp>,
    pushers: seq<Pusher>,
    nextId: nat,
    posted: seq<Posted>,
    service: Registration,
    client: Registration,
    accepted: seq<Request>)      // history: every request inserted, in order

  const NEW_IRP := Irp(true, false, false, NotCalled, None, false, None, [])
  const CLOSED := Registration(false, false, 0)
  const INITIAL := State([], None, None, Free, [], [], 0, [], CLOSED, CLOSED, [])

  datatype Event =
    | PushStart(command: string)
    | PushInsert(p: nat)
    | NotifyLock(p: nat)
    | NotifyPop
    | NotifyExchange
    | NotifyComplete(p: nat)
    | PushRelease(p: nat)
    | GetStart
    | GetLock(i: nat)
    | GetPop
    | GetPend
    | GetCheck
    | GetUnset
    | InlineComplete(i: nat)
    | CancelMark(i: nat)
    | CancelExchange(i: nat)
    | CancelUnlink(i: nat)
    | CancelComplete(i: nat)
    | Post(id: nat, result: int)
    | ClientAcquire(k: nat)
    | ClientCallback(k: nat)
    | ServiceOpen
    | ServiceClose
    | ServiceClosed
    | ClientOpen
    | ClientClose
    | ClientClosed

  // ---------------------------------------------------------------- steps

  function SetIrp(s: State, i: nat, irp: Irp): State
    requires i < |s.irps|
  {
    s.(irps := s.irps[i := irp])
  }

  function SetPhase(s: State, p: nat, phase: PushPhase): State
    requires p < |s.pushers|
  {
    s.(pushers := s.pushers[p := s.pushers[p].(phase := phase)])
  }

  function Complete(irp: Irp, status: Status): Irp {
    irp.(completions := irp.completions + [status])
  }

  function AcquireRef(r: Registration): Registration {
    r.(refs := r.refs + 1)
  }

  function ReleaseRef(r: Registration): Registration
    requires r.refs > 0
  {
    r.(refs := r.refs - 1)
  }

  /** `RqClientPushRequest` up to and including its notification, and the release of the reference. */
  function ApplyPush(s: State, e: Event): Option<State>
    requires e.PushStart? || e.PushInsert? || e.PushRelease?
  {
    match e
    case PushStart(command) =>
      Some(s.(nextId := s.nextId + 1, pushers := s.pushers + [Pusher(Request(s.nextId + 1, command), Inserting)]))
    case PushInsert(p) =>
      if p >= |s.pushers| || s.pushers[p].phase != Inserting then None
      else if !s.service.registered || s.service.closing then Some(SetPhase(s, p, PushDone))
      else
        var r := s.pushers[p].request;
        Some(SetPhase(s, p, if s.queue == [] then MustNotify else MustRelease)
             .(queue := s.queue + [r], accepted := s.accepted + [r], service := AcquireRef(s.service)))
    case PushRelease(p) =>
      if p >= |s.pushers| || s.pushers[p].phase != MustRelease || s.service.refs == 0 then None
      else Some(SetPhase(s, p, PushDone).(service := ReleaseRef(s.service)))
  }

  /** `ServiceRequestAvailable`. */
  function ApplyNotify(s: State, e: Event): Option<State>
    requires e.NotifyLock? || e.NotifyPop? || e.NotifyExchange? || e.NotifyComplete?
  {
    match e
    case NotifyLock(p) =>
      if p >= |s.pushers| || s.pushers[p].phase != MustNotify || s.holder != Free then None
      else if s.pendingIrp.None? then Some(SetPhase(s, p, MustRelease))
      else Some(s.(holder := NotifyPopping(p)))
    case NotifyPop =>
      if !s.holder.NotifyPopping? || s.holder.pusher >= |s.pushers| then None
      else if s.queue == [] then Some(SetPhase(s, s.holder.pusher, MustRelease).(holder := Free))
      else if s.pendingIrp.None? || s.pendingIrp.value >= |s.irps| then None
      else
        var i := s.pendingIrp.value;
        Some(SetIrp(s, i, s.irps[i].(output := Some(s.queue[0])))
             .(queue := s.queue[1..], pendingIrp := None, pendingRequest := Some(s.queue[0]),
               holder := NotifyExchanging(s.holder.pusher, i)))
    case NotifyExchange =>
      if !s.holder.NotifyExchanging? || s.holder.pusher >= |s.pushers| || s.holder.irp >= |s.irps| then None
      else
        var i := s.holder.irp;
        if s.irps[i].routine then
          Some(SetPhase(SetIrp(s, i, s.irps[i].(routine := false, owed := true)), s.holder.pusher, MustComplete(i))
               .(holder := Free))
        else Some(SetPhase(s, s.holder.pusher, MustRelease).(holder := Free))
    case NotifyComplete(p) =>
      if p >= |s.pushers| || !s.pushers[p].phase.MustComplete? || s.pushers[p].phase.irp >= |s.irps| then None
      else
        var i := s.pushers[p].phase.irp;
        Some(SetPhase(SetIrp(s, i, Complete(s.irps[i].(owed := false), Success)), p, MustRelease))
  }

  /** `ServiceIrpGet`, and the completion of a non-pending status by the dispatch routine. */
  function ApplyGet(s: State, e: Event): Option<State>
    requires e.GetStart? || e.GetLock? || e.GetPop? || e.GetPend? || e.GetCheck? || e.GetUnset? || e.InlineComplete?
  {
    match e
    case GetStart => Some(s.(irps := s.irps + [NEW_IRP]))
    case GetLock(i) =>
      if i >= |s.irps| || !s.irps[i].entering || s.holder != Free then None
      else
        var irp := s.irps[i].(entering := false);
        if s.pendingIrp.Some? || s.pendingRequest.Some? then Some(SetIrp(s, i, irp.(returning := Some(Refused))))
        else Some(SetIrp(s, i, irp).(holder := GetPopping(i)))
    case GetPop =>
      if !s.holder.GetPopping? || s.holder.irp >= |s.irps| then None
      else
        var i := s.holder.irp;
        if s.queue == [] then Some(s.(holder := GetPending(i)))
        else Some(SetIrp(s, i, s.irps[i].(output := Some(s.queue[0]), returning := Some(Success)))
                  .(queue := s.queue[1..], pendingRequest := Some(s.queue[0]), holder := Free))
    case GetPend =>
      if !s.holder.GetPending? || s.holder.irp >= |s.irps| then None
      else
        var i := s.holder.irp;
        Some(SetIrp(s, i, s.irps[i].(routine := true)).(pendingIrp := Some(i), holder := GetChecking(i)))
    case GetCheck =>
      if !s.holder.GetChecking? || s.holder.irp >= |s.irps| then None
      else Some(s.(holder := if s.irps[s.holder.irp].cancel then GetUnsetting(s.holder.irp) else Free))
    case GetUnset =>
      if !s.holder.GetUnsetting? || s.holder.irp >= |s.irps| then None
      else
        var i := s.holder.irp;
        if s.irps[i].routine then
          Some(SetIrp(s, i, s.irps[i].(routine := false, returning := Some(Cancelled))).(pendingIrp := None, holder := Free))
        else Some(s.(holder := Free))
    case InlineComplete(i) =>
      if i >= |s.irps| || s.irps[i].returning.None? then None
      else Some(SetIrp(s, i, Complete(s.irps[i].(returning := None), s.irps[i].returning.value)))
  }

  /** `IoCancelIrp` (mark, then exchange the routine) and `ServiceCancelGet`. */
  function ApplyCancel(s: State, e: Event): Option<State>
    requires e.CancelMark? || e.CancelExchange? || e.CancelUnlink? || e.CancelComplete?
  {
    if e.i >= |s.irps| then None
    else
      var irp := s.irps[e.i];
      match e
      case CancelMark(i) => Some(SetIrp(s, i, irp.(cancel := true)))
      case CancelExchange(i) =>
        if !irp.cancel then None
        else if irp.routine then Some(SetIrp(s, i, irp.(routine := false, cancelPhase := Called)))
        else Some(s)
      case CancelUnlink(i) =>
        if irp.cancelPhase != Called || s.holder != Free then None
        else Some(SetIrp(s, i, irp.(cancelPhase := Unlinked))
                  .(pendingIrp := if s.pendingIrp == Some(i) then None else s.pendingIrp))
      case CancelComplete(i) =>
        if irp.cancelPhase != Unlinked then None
        else Some(SetIrp(s, i, Complete(irp.(cancelPhase := NotCalled), Cancelled)))
  }

  /** `ServiceIrpPost`, which dereferences `PendingRequest`: a pending request is its
      precondition, so the step is not enabled without one. Then `RqServiceCompleteRequest`. */
  function ApplyPost(s: State, e: Event): Option<State>
    requires e.Post? || e.ClientAcquire? || e.ClientCallback?
  {
    match e
    case Post(id, result) =>
      if s.pendingRequest.None? || s.holder != Free then None
      else if s.pendingRequest.value.id != id then Some(s)
      else Some(s.(pendingRequest := None, posted := s.posted + [Posted(s.pendingRequest.value, result, Taken)]))
    case ClientAcquire(k) =>
      if k >= |s.posted| || s.posted[k].fate != Taken then None
      else if !s.client.registered || s.client.closing then
        Some(s.(posted := s.posted[k := s.posted[k].(fate := Dropped)]))
      else Some(s.(posted := s.posted[k := s.posted[k].(fate := Calling)], client := AcquireRef(s.client)))
    case ClientCallback(k) =>
      if k >= |s.posted| || s.posted[k].fate != Calling || s.client.refs == 0 then None
      else Some(s.(posted := s.posted[k := s.posted[k].(fate := Delivered)], client := ReleaseRef(s.client)))
  }

  /** Registration, and deregistration in two steps: the rundown is closed, then waited for. */
  function Open(r: Registration): Option<Registration> {
    if r.registered then None else Some(Registration(true, false, 0))
  }

  function Close(r: Registration): Option<Registration> {
    if !r.registered then None else Some(r.(closing := true))
  }

  function FinishClose(r: Registration): Option<Registration> {
    if !r.registered || !r.closing || r.refs != 0 then None else Some(r.(registered := false))
  }

  function Register(s: State, service: bool, r: Option<Registration>): Option<State> {
    if r.None? then None
    else if service then Some(s.(service := r.value))
    else Some(s.(client := r.value))
  }

  function Apply(s: State, e: Event): Option<State> {
    match e
    case PushStart(_) | PushInsert(_) | PushRelease(_) => ApplyPush(s, e)
    case NotifyLock(_) | NotifyPop | NotifyExchange | NotifyComplete(_) => ApplyNotify(s, e)
    case GetStart | GetLock(_) | GetPop | GetPend | GetCheck | GetUnset | InlineComplete(_) => ApplyGet(s, e)
    case CancelMark(_) | CancelExchange(_) | CancelUnlink(_) | CancelComplete(_) => ApplyCancel(s, e)
    case Post(_, _) | ClientAcquire(_) | ClientCallback(_) => ApplyPost(s, e)
    case ServiceOpen => Register(s, true, Open(s.service))
    case ServiceClose => Register(s, true, Close(s.service))
    case ServiceClosed => Register(s, true, FinishClose(s.service))
    case ClientOpen => Register(s, false, Open(s.client))
    case ClientClose => Register(s, false, Close(s.client))
    case ClientClosed => Register(s, false, FinishClose(s.client))
  }

  /** The state after a sequence of events, if every one was enabled. */
  function Run(s: State, events: seq<Event>): Option<State>
    decreases |events|
  {
    if events == [] then Some(s)
    else
      match Apply(s, events[0])
      case None => None
      case Some(t) => Run(t, events[1..])
  }

  // ---------------------------------------------------------------- invariants

  function Bit(b: bool): nat {
    if b then 1 else 0
  }

  /** Everyone who is going to complete IRP `i`, plus the times it has been completed. */
  function Owners(s: State, i: nat): nat
    requires i < |s.irps|
  {
    var irp := s.irps[i];
    Bit(irp.entering) + Bit(s.holder == GetPopping(i) || s.holder == GetPending(i)) + Bit(irp.routine)
    + Bit(irp.cancelPhase != NotCalled) + Bit(irp.returning.Some?) + Bit(irp.owed) + |irp.completions|
  }

  predicate IrpsOwned(s: State) {
    forall i {:trigger s.irps[i]} :: 0 <= i < |s.irps| ==> Owners(s, i) == 1
  }

  /** The IRP that a lock holder is working on is linked as the code assumes. */
  predicate HolderSound(s: State) {
    match s.holder
    case Free => true
    case GetPopping(i) => i < |s.irps| && s.pendingIrp.None? && s.pendingRequest.None?
    case GetPending(i) => i < |s.irps| && s.pendingIrp.None? && s.pendingRequest.None?
    case GetChecking(i) => s.pendingIrp == Some(i)
    case GetUnsetting(i) => s.pendingIrp == Some(i)
    case NotifyPopping(p) => p < |s.pushers| && s.pushers[p].phase == MustNotify && s.pendingIrp.Some?
    case NotifyExchanging(p, i) =>
      && p < |s.pushers| && s.pushers[p].phase == MustNotify
      && s.pendingIrp.None? && s.pendingRequest.Some?
      && i < |s.irps| && s.irps[i].output == s.pendingRequest
      && (s.irps[i].routine || s.irps[i].cancelPhase == Called)
  }

  /** A pended IRP can still be completed by exactly the notifier or the cancel routine. */
  predicate PendingSound(s: State) {
    && (s.pendingIrp.Some? ==>
          && s.pendingIrp.value < |s.irps|
          && (s.irps[s.pendingIrp.value].routine || s.irps[s.pendingIrp.value].cancelPhase == Called))
    && !(s.pendingIrp.Some? && s.pendingRequest.Some?)
  }

  predicate OwedSound(s: State) {
    forall p {:trigger s.pushers[p]} :: 0 <= p < |s.pushers| && s.pushers[p].phase.MustComplete? ==>
      var i := s.pushers[p].phase.irp;
      i < |s.irps| && s.irps[i].owed
  }

  predicate OwedUnique(s: State) {
    forall p, q {:trigger s.pushers[p], s.pushers[q]} ::
      0 <= p < q < |s.pushers| && s.pushers[p].phase.MustComplete? ==> s.pushers[p].phase != s.pushers[q].phase
  }

  /** A GET handler has found the queue empty, or its IRP is pended. */
  predicate Waiting(s: State) {
    s.pendingIrp.Some? || s.holder.GetPending?
  }

  predicate NotificationComing(s: State) {
    exists p :: 0 <= p < |s.pushers| && s.pushers[p].phase == MustNotify
  }

  /** No lost wakeup. */
  predicate Awake(s: State) {
    Waiting(s) && s.queue != [] ==> NotificationComing(s)
  }

  function PostedRequests(posted: seq<Posted>): (r: seq<Request>)
    ensures |r| == |posted|
  {
    seq(|posted|, i requires 0 <= i < |posted| => posted[i].request)
  }

  function PendingRequests(pending: Option<Request>): seq<Request> {
    if pending.None? then [] else [pending.value]
  }

  /** Every accepted request is in exactly one of three places, and they are in push order. */
  predicate Fifo(s: State) {
    s.accepted == PostedRequests(s.posted) + PendingRequests(s.pendingRequest) + s.queue
  }

  /** Identifiers are handed out once. */
  predicate IdsFresh(s: State) {
    && (forall p {:trigger s.pushers[p]} :: 0 <= p < |s.pushers| ==> s.pushers[p].request.id <= s.nextId)
    && (forall p, q {:trigger s.pushers[p], s.pushers[q]} ::
          0 <= p < q < |s.pushers| ==> s.pushers[p].request.id != s.pushers[q].request.id)
    && (forall k {:trigger s.accepted[k]} :: 0 <= k < |s.accepted| ==> Submitted(s, s.accepted[k]))
    && (forall j, k {:trigger s.accepted[j], s.accepted[k]} ::
          0 <= j < k < |s.accepted| ==> s.accepted[j].id != s.accepted[k].id)
  }

  /** `r` was inserted by some push that has got past its insertion. */
  predicate Submitted(s: State, r: Request) {
    exists p :: 0 <= p < |s.pushers| && s.pushers[p].request == r && s.pushers[p].phase != Inserting
  }

  function ServiceRefs(pushers: seq<Pusher>): nat {
    if pushers == [] then 0
    else Bit(!pushers[0].phase.Inserting? && !pushers[0].phase.PushDone?) + ServiceRefs(pushers[1..])
  }

  function ClientRefs(posted: seq<Posted>): nat {
    if posted == [] then 0 else Bit(posted[0].fate == Calling) + ClientRefs(posted[1..])
  }

  /** The rundown counts are the calls in progress, and a deregistered side has none. */
  predicate RefsSound(s: State) {
    && s.service.refs == ServiceRefs(s.pushers)
    && s.client.refs == ClientRefs(s.posted)
    && (!s.service.registered ==> s.service.refs == 0)
    && (!s.client.registered ==> s.client.refs == 0)
  }

  predicate Inv(s: State) {
    && Core(s) && Owned(s) && Awake(s) && Fifo(s) && IdsFresh(s) && RefsSound(s)
  }

  // ---------------------------------------------------------------- every step keeps the invariant

  lemma {:induction false} ServiceRefsUpdate(pushers: seq<Pusher>, p: nat, x: Pusher)
    requires p < |pushers|
    ensures ServiceRefs(pushers[p := x]) + Bit(!pushers[p].phase.Inserting? && !pushers[p].phase.PushDone?)
            == ServiceRefs(pushers) + Bit(!x.phase.Inserting? && !x.phase.PushDone?)
  {
    if p > 0 {
      assert pushers[p := x][1..] == pushers[1..][p - 1 := x];
      ServiceRefsUpdate(pushers[1..], p - 1, x);
    } else {
      assert pushers[p := x][1..] == pushers[1..];
    }
  }

  lemma {:induction false} ServiceRefsAppend(pushers: seq<Pusher>, x: Pusher)
    ensures ServiceRefs(pushers + [x]) == ServiceRefs(pushers) + Bit(!x.phase.Inserting? && !x.phase.PushDone?)
  {
    if pushers == [] {
      assert (pushers + [x])[1..] == [];
    } else {
      assert (pushers + [x])[1..] == pushers[1..] + [x];
      ServiceRefsAppend(pushers[1..], x);
    }
  }

  lemma {:induction false} ClientRefsUpdate(posted: seq<Posted>, k: nat, x: Posted)
    requires k < |posted|
    ensures ClientRefs(posted[k := x]) + Bit(posted[k].fate == Calling) == ClientRefs(posted) + Bit(x.fate == Calling)
  {
    if k > 0 {
      assert posted[k := x][1..] == posted[1..][k - 1 := x];
      ClientRefsUpdate(posted[1..], k - 1, x);
    } else {
      assert posted[k := x][1..] == posted[1..];
    }
  }

  lemma {:induction false} ClientRefsAppend(posted: seq<Posted>, x: Posted)
    ensures ClientRefs(posted + [x]) == ClientRefs(posted) + Bit(x.fate == Calling)
  {
    if posted == [] {
      assert (posted + [x])[1..] == [];
    } else {
      assert (posted + [x])[1..] == posted[1..] + [x];
      ClientRefsAppend(posted[1..], x);
    }
  }

  predicate IsPush(e: Event) { e.PushStart? || e.PushInsert? || e.PushRelease? }

  predicate IsNotify(e: Event) { e.NotifyLock? || e.NotifyPop? || e.NotifyExchange? || e.NotifyComplete? }

  predicate IsGet(e: Event) {
    e.GetStart? || e.GetLock? || e.GetPop? || e.GetPend? || e.GetCheck? || e.GetUnset? || e.InlineComplete?
  }

  predicate IsCancel(e: Event) { e.CancelMark? || e.CancelExchange? || e.CancelUnlink? || e.CancelComplete? }

  predicate IsPost(e: Event) { e.Post? || e.ClientAcquire? || e.ClientCallback? }

  predicate Core(s: State) {
    PendingSound(s) && HolderSound(s)
  }

  lemma CorePush(s: State, e: Event, t: State)
    requires Core(s) && IsPush(e) && ApplyPush(s, e) == Some(t)
    ensures Core(t)
  {
  }

  lemma CoreNotify(s: State, e: Event, t: State)
    requires Core(s) && IsNotify(e) && ApplyNotify(s, e) == Some(t)
    ensures Core(t)
  {
  }

  lemma CoreGet(s: State, e: Event, t: State)
    requires Core(s) && IsGet(e) && ApplyGet(s, e) == Some(t)
    ensures Core(t)
  {
  }

  lemma CoreCancel(s: State, e: Event, t: State)
    requires Core(s) && IsCancel(e) && ApplyCancel(s, e) == Some(t)
    ensures Core(t)
  {
  }

  lemma CoreStep(s: State, e: Event, t: State)
    requires Core(s) && Apply(s, e) == Some(t)
    ensures Core(t)
  {
    if IsPush(e) {
      CorePush(s, e, t);
    } else if IsNotify(e) {
      CoreNotify(s, e, t);
    } else if IsGet(e) {
      CoreGet(s, e, t);
    } else if IsCancel(e) {
      CoreCancel(s, e, t);
    }
  }

  /** The push whose thread takes the step, if it is one of its own. */
  function Thread(s: State, e: Event): Option<nat> {
    match e
    case PushInsert(p) => Some(p)
    case PushRelease(p) => Some(p)
    case NotifyLock(p) => Some(p)
    case NotifyPop => if s.holder.NotifyPopping? then Some(s.holder.pusher) else None
    case NotifyExchange => if s.holder.NotifyExchanging? then Some(s.holder.pusher) else None
    case NotifyComplete(p) => Some(p)
    case _ => None
  }

  /** A step changes the phase of its own thread only. */
  predicate OnlyThread(s: State, e: Event, t: State) {
    if e.PushStart? then t.pushers == s.pushers + [Pusher(Request(s.nextId + 1, e.command), Inserting)]
    else match Thread(s, e)
         case None => t.pushers == s.pushers
         case Some(p) => p < |s.pushers| == |t.pushers|
                         && t.pushers == s.pushers[p := s.pushers[p].(phase := t.pushers[p].phase)]
  }

  lemma ThreadsStep(s: State, e: Event, t: State)
    requires Apply(s, e) == Some(t)
    ensures OnlyThread(s, e, t)
  {
  }

  lemma AwakePush(s: State, e: Event, t: State)
    requires Core(s) && Awake(s) && IsPush(e) && ApplyPush(s, e) == Some(t)
    ensures Awake(t)
  {
    if Waiting(t) && t.queue != [] {
      if e.PushInsert? && s.queue == [] {
        assert t.pushers[e.p].phase == MustNotify;
      } else {
        var p :| 0 <= p < |s.pushers| && s.pushers[p].phase == MustNotify;
        assert t.pushers[p].phase == MustNotify;
      }
    }
  }

  lemma AwakeNotify(s: State, e: Event, t: State)
    requires Core(s) && Awake(s) && IsNotify(e) && ApplyNotify(s, e) == Some(t)
    ensures Awake(t)
  {
    if Waiting(t) && t.queue != [] {
      var p :| 0 <= p < |s.pushers| && s.pushers[p].phase == MustNotify;
      assert t.pushers[p].phase == MustNotify;
    }
  }

  /** No lost wakeup: only a push can make the queue non-empty, and it then must notify; a
      notification is used up only when nothing is waiting, or by taking the waiting IRP. */
  lemma AwakeStep(s: State, e: Event, t: State)
    requires Core(s) && Awake(s) && Apply(s, e) == Some(t)
    ensures Awake(t)
  {
    if IsPush(e) {
      AwakePush(s, e, t);
    } else if IsNotify(e) {
      AwakeNotify(s, e, t);
    } else {
      ThreadsStep(s, e, t);
      AwakeOther(s, e, t);
    }
  }

  lemma AwakeOther(s: State, e: Event, t: State)
    requires Core(s) && Awake(s) && !IsPush(e) && !IsNotify(e) && Apply(s, e) == Some(t)
    requires t.pushers == s.pushers
    ensures Awake(t)
  {
    if Waiting(t) && t.queue != [] {
      assert Waiting(s) && s.queue != [];
    }
  }

  lemma FifoPush(s: State, e: Event, t: State)
    requires Fifo(s) && IsPush(e) && ApplyPush(s, e) == Some(t)
    ensures Fifo(t)
  {
  }

  lemma FifoNotify(s: State, e: Event, t: State)
    requires Core(s) && Fifo(s) && IsNotify(e) && ApplyNotify(s, e) == Some(t)
    ensures Fifo(t)
  {
  }

  lemma FifoGet(s: State, e: Event, t: State)
    requires Core(s) && Fifo(s) && IsGet(e) && ApplyGet(s, e) == Some(t)
    ensures Fifo(t)
  {
  }

  lemma FifoPost(s: State, e: Event, t: State)
    requires Fifo(s) && IsPost(e) && ApplyPost(s, e) == Some(t)
    ensures Fifo(t)
  {
    assert PostedRequests(t.posted)[..|s.posted|] == PostedRequests(s.posted);
  }

  lemma FifoStep(s: State, e: Event, t: State)
    requires Core(s) && Fifo(s) && Apply(s, e) == Some(t)
    ensures Fifo(t)
  {
    if IsPush(e) {
      FifoPush(s, e, t);
    } else if IsNotify(e) {
      FifoNotify(s, e, t);
    } else if IsGet(e) {
      FifoGet(s, e, t);
    } else if IsPost(e) {
      FifoPost(s, e, t);
    }
  }

  predicate Owned(s: State) {
    IrpsOwned(s) && OwedSound(s) && OwedUnique(s)
  }

  lemma OwnersNotify(s: State, e: Event, t: State, i: nat)
    requires Core(s) && Owned(s) && IsNotify(e) && ApplyNotify(s, e) == Some(t)
    requires i < |t.irps|
    ensures Owners(t, i) == 1
  {
    assert Owners(s, i) == 1;
  }

  lemma OwnersGet(s: State, e: Event, t: State, i: nat)
    requires Core(s) && Owned(s) && IsGet(e) && ApplyGet(s, e) == Some(t)
    requires i < |t.irps|
    ensures Owners(t, i) == 1
  {
    assert i < |s.irps| ==> Owners(s, i) == 1;
  }

  lemma OwnersCancel(s: State, e: Event, t: State, i: nat)
    requires Core(s) && Owned(s) && IsCancel(e) && ApplyCancel(s, e) == Some(t)
    requires i < |t.irps|
    ensures Owners(t, i) == 1
  {
    assert Owners(s, i) == 1;
  }

  /** The notifier's exchange: nobody else can already owe this IRP, since its routine was set. */
  lemma OwedExchange(s: State, t: State)
    requires Core(s) && Owned(s) && ApplyNotify(s, NotifyExchange) == Some(t)
    ensures OwedSound(t) && OwedUnique(t)
  {
    assert Owners(s, s.holder.irp) == 1;
  }

  lemma OwedComplete(s: State, p: nat, t: State)
    requires Core(s) && Owned(s) && ApplyNotify(s, NotifyComplete(p)) == Some(t)
    ensures OwedSound(t) && OwedUnique(t)
  {
  }

  lemma OwedNotify(s: State, e: Event, t: State)
    requires Core(s) && Owned(s) && IsNotify(e) && ApplyNotify(s, e) == Some(t)
    ensures OwedSound(t) && OwedUnique(t)
  {
    match e
    case NotifyExchange => OwedExchange(s, t);
    case NotifyComplete(p) => OwedComplete(s, p, t);
    case _ =>
  }

  lemma OwnersStep(s: State, e: Event, t: State, i: nat)
    requires Core(s) && Owned(s) && Apply(s, e) == Some(t)
    requires i < |t.irps|
    ensures Owners(t, i) == 1
  {
    if IsNotify(e) {
      OwnersNotify(s, e, t, i);
    } else if IsGet(e) {
      OwnersGet(s, e, t, i);
    } else if IsCancel(e) {
      OwnersCancel(s, e, t, i);
    } else {
      assert t.irps == s.irps && t.holder == s.holder;
      assert Owners(s, i) == 1;
    }
  }

  /** Outside the notifier nobody's debt changes. */
  predicate SameDebts(s: State, t: State) {
    && (forall i {:trigger t.irps[i]} :: 0 <= i < |s.irps| ==> i < |t.irps| && t.irps[i].owed == s.irps[i].owed)
    && (forall p {:trigger t.pushers[p]} :: 0 <= p < |t.pushers| && t.pushers[p].phase.MustComplete? ==>
          p < |s.pushers| && s.pushers[p].phase == t.pushers[p].phase)
  }

  lemma DebtsKept(s: State, t: State)
    requires Owned(s) && SameDebts(s, t) && |s.irps| <= |t.irps|
    ensures OwedSound(t) && OwedUnique(t)
  {
  }

  lemma DebtsPush(s: State, e: Event, t: State)
    requires IsPush(e) && ApplyPush(s, e) == Some(t)
    ensures SameDebts(s, t) && t.irps == s.irps
  {
  }

  lemma DebtsGet(s: State, e: Event, t: State)
    requires IsGet(e) && ApplyGet(s, e) == Some(t)
    ensures SameDebts(s, t) && |s.irps| <= |t.irps|
  {
  }

  lemma DebtsCancel(s: State, e: Event, t: State)
    requires IsCancel(e) && ApplyCancel(s, e) == Some(t)
    ensures SameDebts(s, t) && |s.irps| <= |t.irps|
  {
  }

  lemma OwnedStep(s: State, e: Event, t: State)
    requires Core(s) && Owned(s) && Apply(s, e) == Some(t)
    ensures Owned(t)
  {
    forall i: nat | i < |t.irps|
      ensures Owners(t, i) == 1
    {
      OwnersStep(s, e, t, i);
    }
    if IsNotify(e) {
      OwedNotify(s, e, t);
    } else {
      if IsPush(e) {
        DebtsPush(s, e, t);
      } else if IsGet(e) {
        DebtsGet(s, e, t);
      } else if IsCancel(e) {
        DebtsCancel(s, e, t);
      } else {
        assert t.irps == s.irps && t.pushers == s.pushers;
      }
      DebtsKept(s, t);
    }
  }

  lemma IdsAccepted(s: State, e: Event, t: State)
    requires Apply(s, e) == Some(t)
    ensures t.nextId == s.nextId + Bit(e.PushStart?)
    ensures t.accepted == s.accepted || (e.PushInsert? && e.p < |s.pushers| && s.pushers[e.p].phase == Inserting
                                         && t.accepted == s.accepted + [s.pushers[e.p].request])
    ensures t.accepted != s.accepted ==> e.p < |t.pushers| && t.pushers[e.p].phase != Inserting
  {
  }

  /** A push that got past its insertion does not go back. */
  lemma PhasesStay(s: State, e: Event, t: State)
    requires Apply(s, e) == Some(t)
    ensures forall p :: 0 <= p < |s.pushers| && s.pushers[p].phase != Inserting ==>
              p < |t.pushers| && t.pushers[p].phase != Inserting
  {
    if !e.PushStart? && !e.PushInsert? && !e.PushRelease? && !IsNotify(e) {
      SamePushers(s, e, t);
    }
  }

  lemma IdsStep(s: State, e: Event, t: State)
    requires IdsFresh(s) && Apply(s, e) == Some(t)
    ensures IdsFresh(t)
  {
    ThreadsStep(s, e, t);
    IdsAccepted(s, e, t);
    PhasesStay(s, e, t);
    IdsFromShape(s, e, t);
  }

  lemma IdsFromShape(s: State, e: Event, t: State)
    requires IdsFresh(s) && OnlyThread(s, e, t)
    requires t.nextId == s.nextId + Bit(e.PushStart?)
    requires t.accepted == s.accepted || (e.PushInsert? && e.p < |s.pushers| && s.pushers[e.p].phase == Inserting
                                          && t.accepted == s.accepted + [s.pushers[e.p].request])
    requires forall p :: 0 <= p < |s.pushers| && s.pushers[p].phase != Inserting ==>
               p < |t.pushers| && t.pushers[p].phase != Inserting
    requires t.accepted != s.accepted ==> e.p < |t.pushers| && t.pushers[e.p].phase != Inserting
    ensures IdsFresh(t)
  {
    forall k | 0 <= k < |s.accepted|
      ensures Submitted(t, s.accepted[k])
    {
      var p :| 0 <= p < |s.pushers| && s.pushers[p].request == s.accepted[k] && s.pushers[p].phase != Inserting;
      assert t.pushers[p].request == s.accepted[k] && t.pushers[p].phase != Inserting;
    }
    if t.accepted != s.accepted {
      assert t.pushers[e.p].request == t.accepted[|s.accepted|] && t.pushers[e.p].phase != Inserting;
    }
  }

  lemma RefsPush(s: State, e: Event, t: State)
    requires RefsSound(s) && IsPush(e) && ApplyPush(s, e) == Some(t)
    ensures RefsSound(t)
  {
    match e
    case PushStart(command) => ServiceRefsAppend(s.pushers, t.pushers[|s.pushers|]);
    case PushInsert(p) => ServiceRefsUpdate(s.pushers, p, t.pushers[p]);
    case PushRelease(p) => ServiceRefsUpdate(s.pushers, p, t.pushers[p]);
  }

  lemma RefsNotify(s: State, e: Event, t: State)
    requires RefsSound(s) && HolderSound(s) && IsNotify(e) && ApplyNotify(s, e) == Some(t)
    ensures RefsSound(t)
  {
    ThreadsStep(s, e, t);
    var p := Thread(s, e).value;
    ServiceRefsUpdate(s.pushers, p, t.pushers[p]);
  }

  lemma RefsPost(s: State, e: Event, t: State)
    requires RefsSound(s) && IsPost(e) && ApplyPost(s, e) == Some(t)
    ensures RefsSound(t)
  {
    match e
    case Post(id, result) => ClientRefsAppend(s.posted, Posted(s.pendingRequest.value, result, Taken));
    case ClientAcquire(k) => ClientRefsUpdate(s.posted, k, t.posted[k]);
    case ClientCallback(k) => ClientRefsUpdate(s.posted, k, t.posted[k]);
  }

  lemma RefsQuiet(s: State, e: Event, t: State)
    requires RefsSound(s) && (IsGet(e) || IsCancel(e))
    requires (if IsGet(e) then ApplyGet(s, e) else ApplyCancel(s, e)) == Some(t)
    ensures RefsSound(t)
  {
    assert t.pushers == s.pushers && t.posted == s.posted && t.service == s.service && t.client == s.client;
  }

  lemma RefsStep(s: State, e: Event, t: State)
    requires RefsSound(s) && HolderSound(s) && Apply(s, e) == Some(t)
    ensures RefsSound(t)
  {
    if IsPush(e) {
      RefsPush(s, e, t);
    } else if IsNotify(e) {
      RefsNotify(s, e, t);
    } else if IsPost(e) {
      RefsPost(s, e, t);
    } else if IsGet(e) || IsCancel(e) {
      RefsQuiet(s, e, t);
    } else {
      assert t.pushers == s.pushers && t.posted == s.posted;
    }
  }

  lemma StepKeepsInv(s: State, e: Event, t: State)
    requires Inv(s) && Apply(s, e) == Some(t)
    ensures Inv(t)
  {
    CoreStep(s, e, t);
    OwnedStep(s, e, t);
    AwakeStep(s, e, t);
    FifoStep(s, e, t);
    IdsStep(s, e, t);
    RefsStep(s, e, t);
  }

  /** Every state of every run satisfies the invariant. */
  lemma {:induction false} RunKeepsInv(s: State, events: seq<Event>)
    requires Inv(s) && Run(s, events).Some?
    ensures Inv(Run(s, events).value)
    decreases |events|
  {
    if events != [] {
      StepKeepsInv(s, events[0], Apply(s, events[0]).value);
      RunKeepsInv(Apply(s, events[0]).value, events[1..]);
    }
  }

  lemma InitialInv()
    ensures Inv(INITIAL)
  {
  }

  // ---------------------------------------------------------------- what every run satisfies

  ghost predicate ReachableFrom(s0: State, s: State) {
    exists events :: Run(s0, events) == Some(s)
  }

  predicate IsStart(s: State) {
    s == INITIAL
  }

  ghost predicate Reachable(s: State) {
    exists s0 :: IsStart(s0) && ReachableFrom(s0, s)
  }

  lemma ReachableFromInv(s0: State, s: State)
    requires Inv(s0) && ReachableFrom(s0, s)
    ensures Inv(s)
  {
    var events :| Run(s0, events) == Some(s);
    RunKeepsInv(s0, events);
  }

  lemma ReachableInv(s: State)
    requires Reachable(s)
    ensures Inv(s)
  {
    var s0 :| IsStart(s0) && ReachableFrom(s0, s);
    InitialInv();
    ReachableFromInv(s0, s);
  }

  /** If a GET is pended while a request is queued, some push has inserted into an empty queue
      and has not yet run its notification. */
  lemma NoLostWakeup(s: State)
    requires Reachable(s) && s.pendingIrp.Some? && s.queue != []
    ensures NotificationComing(s)
  {
    ReachableInv(s);
  }

  /** A GET is never completed twice, and until it is completed exactly one party is bound to
      complete it: its dispatch thread, the notifier, or the cancel routine. */
  lemma CompletedExactlyOnce(s: State, i: nat)
    requires Reachable(s) && i < |s.irps|
    ensures |s.irps[i].completions| <= 1
    ensures s.irps[i].completions == [] <==>
            Owners(s, i) - |s.irps[i].completions| == 1
  {
    ReachableInv(s);
    assert Owners(s, i) == 1;
  }

  /** The code never sets both, so a request handed out is never overwritten by another. */
  lemma NeverBothPending(s: State)
    requires Reachable(s)
    ensures !(s.pendingIrp.Some? && s.pendingRequest.Some?)
  {
    ReachableInv(s);
  }

  /** Requests are taken in push order; each accepted request is posted, pending or queued,
      in exactly one place and at most once. */
  lemma RequestsConserved(s: State)
    requires Reachable(s)
    ensures s.accepted == PostedRequests(s.posted) + PendingRequests(s.pendingRequest) + s.queue
    ensures forall j, k {:trigger s.accepted[j], s.accepted[k]} :: 0 <= j < k < |s.accepted| ==> s.accepted[j].id != s.accepted[k].id
    ensures forall j, k {:trigger s.posted[j], s.posted[k]} ::
              0 <= j < k < |s.posted| ==> s.posted[j].request.id != s.posted[k].request.id
  {
    ReachableInv(s);
    forall j, k | 0 <= j < k < |s.posted|
      ensures s.posted[j].request.id != s.posted[k].request.id
    {
      assert s.accepted[j] == s.posted[j].request && s.accepted[k] == s.posted[k].request;
    }
  }

  lemma {:induction false} NoRefsNoThread(pushers: seq<Pusher>, p: nat)
    requires ServiceRefs(pushers) == 0 && p < |pushers|
    ensures pushers[p].phase.Inserting? || pushers[p].phase.PushDone?
  {
    if p > 0 {
      NoRefsNoThread(pushers[1..], p - 1);
    }
  }

  lemma {:induction false} NoRefsNoCall(posted: seq<Posted>, k: nat)
    requires ClientRefs(posted) == 0 && k < |posted|
    ensures posted[k].fate != Calling
  {
    if k > 0 {
      NoRefsNoCall(posted[1..], k - 1);
    }
  }

  /** Once a side is deregistered none of its callbacks is running or will run: every push is before its
      insertion or done, and no result is being delivered. */
  lemma QuietAfterDeregister(s: State)
    requires Reachable(s)
    ensures !s.service.registered ==> forall p {:trigger s.pushers[p]} :: 0 <= p < |s.pushers| ==>
              s.pushers[p].phase.Inserting? || s.pushers[p].phase.PushDone?
    ensures !s.service.registered ==> !NotificationComing(s) && !s.holder.NotifyPopping? && !s.holder.NotifyExchanging?
    ensures !s.client.registered ==> forall k {:trigger s.posted[k]} :: 0 <= k < |s.posted| ==> s.posted[k].fate != Calling
  {
    ReachableInv(s);
    if !s.service.registered {
      forall p | 0 <= p < |s.pushers|
        ensures s.pushers[p].phase.Inserting? || s.pushers[p].phase.PushDone?
      {
        NoRefsNoThread(s.pushers, p);
      }
    }
    if !s.client.registered {
      forall k | 0 <= k < |s.posted|
        ensures s.posted[k].fate != Calling
      {
        NoRefsNoCall(s.posted, k);
      }
    }
  }

  // ---------------------------------------------------------------- what the notifier finds

  /** A push between its insertion and its end had its request accepted. */
  predicate PushAccepted(s: State, p: nat)
    requires p < |s.pushers|
  {
    s.pushers[p].phase.Inserting? || s.pushers[p].phase.PushDone? || s.pushers[p].request in s.accepted
  }

  predicate PushesAccepted(s: State) {
    forall p {:trigger s.pushers[p]} :: 0 <= p < |s.pushers| ==> PushAccepted(s, p)
  }

  lemma AcceptedStep(s: State, e: Event, t: State)
    requires HolderSound(s) && PushesAccepted(s) && Apply(s, e) == Some(t)
    ensures PushesAccepted(t)
  {
    AcceptedGrows(s, e, t);
    if e.PushStart? || e.PushInsert? || e.PushRelease? {
      forall p | 0 <= p < |t.pushers| ensures PushAccepted(t, p) { PushKeepsAccepted(s, e, t, p); }
    } else if IsNotify(e) {
      forall p | 0 <= p < |t.pushers| ensures PushAccepted(t, p) { NotifyKeepsAccepted(s, e, t, p); }
    } else {
      SamePushers(s, e, t);
      forall p | 0 <= p < |t.pushers| ensures PushAccepted(t, p) { assert PushAccepted(s, p); }
    }
  }

  lemma SamePushers(s: State, e: Event, t: State)
    requires Apply(s, e) == Some(t) && !e.PushStart? && !e.PushInsert? && !e.PushRelease? && !IsNotify(e)
    ensures t.pushers == s.pushers
  {
  }

  lemma NotifyKeepsAccepted(s: State, e: Event, t: State, p: nat)
    requires HolderSound(s) && PushesAccepted(s) && IsNotify(e) && ApplyNotify(s, e) == Some(t) && p < |t.pushers|
    ensures PushAccepted(t, p)
  {
    assert PushAccepted(s, p);
  }

  lemma AcceptedGrows(s: State, e: Event, t: State)
    requires Apply(s, e) == Some(t)
    ensures !e.PushInsert? ==> t.accepted == s.accepted
  {
  }

  lemma PushKeepsAccepted(s: State, e: Event, t: State, p: nat)
    requires PushesAccepted(s) && (e.PushStart? || e.PushInsert? || e.PushRelease?) && ApplyPush(s, e) == Some(t) && p < |t.pushers|
    ensures PushAccepted(t, p)
  {
    assert p < |s.pushers| ==> PushAccepted(s, p);
    if t.accepted != s.accepted {
      assert t.accepted[|s.accepted|] == s.pushers[e.p].request;
      assert forall r :: r in s.accepted ==> r in t.accepted;
    }
  }

  lemma {:induction false} RunKeepsAccepted(s: State, events: seq<Event>)
    requires Inv(s) && PushesAccepted(s) && Run(s, events).Some?
    ensures PushesAccepted(Run(s, events).value)
    decreases |events|
  {
    if events != [] {
      StepKeepsInv(s, events[0], Apply(s, events[0]).value);
      AcceptedStep(s, events[0], Apply(s, events[0]).value);
      RunKeepsAccepted(Apply(s, events[0]).value, events[1..]);
    }
  }

  lemma ReachableAccepted(s: State)
    requires Reachable(s)
    ensures PushesAccepted(s)
  {
    var s0 :| IsStart(s0) && ReachableFrom(s0, s);
    InitialInv();
    AcceptedFrom(s0, s);
  }

  lemma AcceptedFrom(s0: State, s: State)
    requires Inv(s0) && s0.pushers == [] && ReachableFrom(s0, s)
    ensures PushesAccepted(s)
  {
    var events :| Run(s0, events) == Some(s);
    RunKeepsAccepted(s0, events);
  }

  /** The notifier asserts that its pop succeeds. It does if and only if the push accepted last has not had
      its request posted. When it fails, the request of the notifier's own push was taken by a GET and
      posted before the notifier got the lock, so nothing is missed. */
  lemma PopSucceedsIff(s: State)
    requires Reachable(s) && s.holder.NotifyPopping?
    ensures s.holder.pusher < |s.pushers| && s.pushers[s.holder.pusher].request in s.accepted
    ensures s.queue != [] <==> s.accepted[|s.accepted| - 1] !in PostedRequests(s.posted)
    ensures s.queue == [] ==> s.pushers[s.holder.pusher].request in PostedRequests(s.posted)
  {
    ReachableInv(s);
    ReachableAccepted(s);
    assert PushAccepted(s, s.holder.pusher);
    LastPosted(s);
  }

  lemma LastPosted(s: State)
    requires Inv(s) && s.pendingRequest.None? && s.accepted != []
    ensures s.queue != [] <==> s.accepted[|s.accepted| - 1] !in PostedRequests(s.posted)
    ensures s.queue == [] ==> PostedRequests(s.posted) == s.accepted
  {
    var done := PostedRequests(s.posted);
    assert s.accepted == done + s.queue;
    if s.queue != [] {
      forall k | 0 <= k < |done| ensures done[k] != s.accepted[|s.accepted| - 1] {
        assert s.accepted[k] == done[k];
      }
    }
  }

  // ---------------------------------------------------------------- where a cancelled IRP is

  /** An IRP gets its output when it stops being the pended one. */
  predicate OutputSound(s: State, i: nat)
    requires i < |s.irps|
  {
    var irp := s.irps[i];
    && (irp.entering || s.holder == GetPopping(i) || s.holder == GetPending(i) ==> irp.output.None?)
    && (irp.routine || irp.cancelPhase == Called ==> (s.pendingIrp == Some(i) <==> irp.output.None?))
  }

  predicate OutputsSound(s: State) {
    forall i {:trigger s.irps[i]} :: 0 <= i < |s.irps| ==> OutputSound(s, i)
  }

  lemma OutputNotify(s: State, e: Event, t: State, i: nat)
    requires Core(s) && IrpsOwned(s) && OutputsSound(s) && IsNotify(e) && ApplyNotify(s, e) == Some(t) && i < |t.irps|
    ensures OutputSound(t, i)
  {
    assert OutputSound(s, i) && Owners(s, i) == 1;
  }

  lemma OutputGet(s: State, e: Event, t: State, i: nat)
    requires Core(s) && IrpsOwned(s) && OutputsSound(s) && IsGet(e) && ApplyGet(s, e) == Some(t) && i < |t.irps|
    ensures OutputSound(t, i)
  {
    assert i < |s.irps| ==> OutputSound(s, i) && Owners(s, i) == 1;
  }

  lemma OutputCancel(s: State, e: Event, t: State, i: nat)
    requires Core(s) && IrpsOwned(s) && OutputsSound(s) && IsCancel(e) && ApplyCancel(s, e) == Some(t) && i < |t.irps|
    ensures OutputSound(t, i)
  {
    assert OutputSound(s, i) && Owners(s, i) == 1;
  }

  lemma OutputStep(s: State, e: Event, t: State)
    requires Core(s) && IrpsOwned(s) && OutputsSound(s) && Apply(s, e) == Some(t)
    ensures OutputsSound(t)
  {
    if IsNotify(e) {
      forall i | 0 <= i < |t.irps| ensures OutputSound(t, i) { OutputNotify(s, e, t, i); }
    } else if IsGet(e) {
      forall i | 0 <= i < |t.irps| ensures OutputSound(t, i) { OutputGet(s, e, t, i); }
    } else if IsCancel(e) {
      forall i | 0 <= i < |t.irps| ensures OutputSound(t, i) { OutputCancel(s, e, t, i); }
    } else {
      assert t.irps == s.irps && t.holder == s.holder && t.pendingIrp == s.pendingIrp;
      forall i | 0 <= i < |t.irps| ensures OutputSound(t, i) { assert OutputSound(s, i); }
    }
  }

  lemma {:induction false} RunKeepsOutputs(s: State, events: seq<Event>)
    requires Inv(s) && OutputsSound(s) && Run(s, events).Some?
    ensures OutputsSound(Run(s, events).value)
    decreases |events|
  {
    if events != [] {
      var t := Apply(s, events[0]).value;
      StepKeepsInv(s, events[0], t);
      OutputStep(s, events[0], t);
      RunKeepsOutputs(t, events[1..]);
    }
  }

  /** The cancel routine asserts that its IRP is the pended one. It is exactly when no notifier has
      handed the IRP a request. */
  lemma CancelAssertionIff(s: State, i: nat)
    requires Reachable(s) && i < |s.irps| && s.irps[i].cancelPhase == Called
    ensures s.pendingIrp == Some(i) <==> s.irps[i].output.None?
  {
    ReachableOutputs(s);
    assert OutputSound(s, i);
  }

  lemma ReachableOutputs(s: State)
    requires Reachable(s)
    ensures OutputsSound(s)
  {
    var s0 :| IsStart(s0) && ReachableFrom(s0, s);
    InitialInv();
    OutputsFrom(s0, s);
  }

  lemma OutputsFrom(s0: State, s: State)
    requires Inv(s0) && s0.irps == [] && ReachableFrom(s0, s)
    ensures OutputsSound(s)
  {
    var events :| Run(s0, events) == Some(s);
    RunKeepsOutputs(s0, events);
  }

  // ---------------------------------------------------------------- what a completion says

  /** The IRP has been, or will be, completed with this status by its dispatch thread. */
  predicate EndsWith(irp: Irp, status: Status) {
    irp.returning == Some(status) || status in irp.completions
  }

  predicate StatusSound(s: State, i: nat)
    requires i < |s.irps|
  {
    var irp := s.irps[i];
    && (EndsWith(irp, Cancelled) || irp.cancelPhase != NotCalled || s.holder == GetUnsetting(i) ==> irp.cancel)
    && (EndsWith(irp, Success) || irp.owed ==> irp.output.Some?)
    && (EndsWith(irp, Refused) ==> irp.output.None?)
    && (irp.entering || s.holder == GetPopping(i) || s.holder == GetPending(i) ==> irp.output.None?)
  }

  predicate StatusesSound(s: State) {
    forall i {:trigger s.irps[i]} :: 0 <= i < |s.irps| ==> StatusSound(s, i)
  }

  lemma StatusHandover(s: State, e: Event, t: State, i: nat)
    requires Core(s) && i < |s.irps| && i < |t.irps| && Owners(s, i) == 1 && StatusSound(s, i)
    requires (e.NotifyLock? || e.NotifyPop? || e.NotifyExchange?) && ApplyNotify(s, e) == Some(t)
    ensures StatusSound(t, i)
  {
  }

  lemma StatusNotified(s: State, e: Event, t: State, i: nat)
    requires OwedSound(s) && i < |s.irps| && i < |t.irps| && Owners(s, i) == 1 && StatusSound(s, i)
    requires e.NotifyComplete? && ApplyNotify(s, e) == Some(t)
    ensures StatusSound(t, i)
  {
  }

  lemma StatusNotify(s: State, e: Event, t: State, i: nat)
    requires Core(s) && IrpsOwned(s) && OwedSound(s) && StatusesSound(s) && IsNotify(e) && ApplyNotify(s, e) == Some(t) && i < |t.irps|
    ensures StatusSound(t, i)
  {
    assert StatusSound(s, i) && Owners(s, i) == 1;
    if e.NotifyComplete? {
      StatusNotified(s, e, t, i);
    } else {
      StatusHandover(s, e, t, i);
    }
  }

  lemma StatusEnter(s: State, e: Event, t: State, i: nat)
    requires i < |t.irps| && (i < |s.irps| ==> Owners(s, i) == 1 && StatusSound(s, i))
    requires (e.GetStart? || e.GetLock? || e.GetPop?) && ApplyGet(s, e) == Some(t) && Core(s)
    ensures StatusSound(t, i)
  {
  }

  lemma StatusPend(s: State, e: Event, t: State, i: nat)
    requires i < |s.irps| && i < |t.irps| && Owners(s, i) == 1 && StatusSound(s, i)
    requires IsGet(e) && !e.GetStart? && !e.GetLock? && !e.GetPop? && ApplyGet(s, e) == Some(t)
    ensures StatusSound(t, i)
  {
  }

  lemma StatusGet(s: State, e: Event, t: State, i: nat)
    requires Core(s) && IrpsOwned(s) && StatusesSound(s) && IsGet(e) && ApplyGet(s, e) == Some(t) && i < |t.irps|
    ensures StatusSound(t, i)
  {
    assert i < |s.irps| ==> StatusSound(s, i) && Owners(s, i) == 1;
    if e.GetStart? || e.GetLock? || e.GetPop? {
      StatusEnter(s, e, t, i);
    } else {
      StatusPend(s, e, t, i);
    }
  }

  lemma StatusCancel(s: State, e: Event, t: State, i: nat)
    requires Core(s) && IrpsOwned(s) && StatusesSound(s) && IsCancel(e) && ApplyCancel(s, e) == Some(t) && i < |t.irps|
    ensures StatusSound(t, i)
  {
    assert StatusSound(s, i) && Owners(s, i) == 1;
  }

  lemma StatusStep(s: State, e: Event, t: State)
    requires Core(s) && IrpsOwned(s) && OwedSound(s) && StatusesSound(s) && Apply(s, e) == Some(t)
    ensures StatusesSound(t)
  {
    if IsNotify(e) {
      forall i | 0 <= i < |t.irps| ensures StatusSound(t, i) { StatusNotify(s, e, t, i); }
    } else if IsGet(e) {
      forall i | 0 <= i < |t.irps| ensures StatusSound(t, i) { StatusGet(s, e, t, i); }
    } else if IsCancel(e) {
      forall i | 0 <= i < |t.irps| ensures StatusSound(t, i) { StatusCancel(s, e, t, i); }
    } else {
      assert t.irps == s.irps && t.holder == s.holder;
      forall i | 0 <= i < |t.irps| ensures StatusSound(t, i) { assert StatusSound(s, i); }
    }
  }

  lemma {:induction false} RunKeepsStatuses(s: State, events: seq<Event>)
    requires Inv(s) && StatusesSound(s) && Run(s, events).Some?
    ensures StatusesSound(Run(s, events).value)
    decreases |events|
  {
    if events != [] {
      var t := Apply(s, events[0]).value;
      StepKeepsInv(s, events[0], t);
      StatusStep(s, events[0], t);
      RunKeepsStatuses(t, events[1..]);
    }
  }

  /** A GET that succeeded carries a request, one that was refused carries none, and only a GET that was
      cancelled is completed as cancelled. */
  lemma CompletionSays(s: State, i: nat)
    requires Reachable(s) && i < |s.irps| && s.irps[i].completions != []
    ensures var irp := s.irps[i];
      match irp.completions[0]
      case Success => irp.output.Some?
      case Refused => irp.output.None?
      case Cancelled => irp.cancel
  {
    ReachableStatuses(s);
    assert StatusSound(s, i) && s.irps[i].completions[0] in s.irps[i].completions;
  }

  lemma ReachableStatuses(s: State)
    requires Reachable(s)
    ensures StatusesSound(s)
  {
    var s0 :| IsStart(s0) && ReachableFrom(s0, s);
    InitialInv();
    StatusesFrom(s0, s);
  }

  lemma StatusesFrom(s0: State, s: State)
    requires Inv(s0) && s0.irps == [] && ReachableFrom(s0, s)
    ensures StatusesSound(s)
  {
    var events :| Run(s0, events) == Some(s);
    RunKeepsStatuses(s0, events);
  }

  // ---------------------------------------------------------------- runs

  lemma {:induction false} RunSnoc(s: State, events: seq<Event>, e: Event)
    requires Run(s, events).Some?
    ensures Run(s, events + [e]) == Apply(Run(s, events).value, e)
    decreases |events|
  {
    if events == [] {
      assert Run(s, [e]) == match Apply(s, e) case None => None case Some(t) => Run(t, [e][1..]);
    } else {
      assert (events + [e])[1..] == events[1..] + [e];
      RunSnoc(Apply(s, events[0]).value, events[1..], e);
    }
  }

  lemma Extend(s0: State, s: State, e: Event, t: State)
    requires ReachableFrom(s0, s) && Apply(s, e) == Some(t)
    ensures ReachableFrom(s0, t)
  {
    var events :| Run(s0, events) == Some(s);
    RunSnoc(s0, events, e);
    assert Run(s0, events + [e]) == Some(t);
  }

  // ---------------------------------------------------------------- what becomes of a posted result

  predicate LiveClient(s: State) {
    s.client.registered && !s.client.closing
  }

  /** The step in which the driver finds no client for entry `k`. */
  predicate FindsNoClient(s: State, e: Event, k: nat) {
    e == ClientAcquire(k) && k < |s.posted| && s.posted[k].fate == Taken && !LiveClient(s)
  }

  /** No step changes what was posted, a result that was dropped or delivered stays so, and one is dropped
      exactly when its acquire finds the client unregistered or closing. */
  lemma DroppedIff(s: State, e: Event, t: State, k: nat)
    requires Apply(s, e) == Some(t) && k < |s.posted|
    ensures k < |t.posted| && t.posted[k].request == s.posted[k].request && t.posted[k].result == s.posted[k].result
    ensures s.posted[k].fate == Dropped || s.posted[k].fate == Delivered ==> t.posted[k].fate == s.posted[k].fate
    ensures s.posted[k].fate != Dropped ==> (t.posted[k].fate == Dropped <==> FindsNoClient(s, e, k))
  {
    if !e.Post? && !e.ClientAcquire? && !e.ClientCallback? {
      SamePosted(s, e, t);
    }
  }

  lemma SamePosted(s: State, e: Event, t: State)
    requires Apply(s, e) == Some(t) && !e.Post? && !e.ClientAcquire? && !e.ClientCallback?
    ensures t.posted == s.posted
  {
  }

  /** Entries join as taken; only a post adds one. */
  lemma PostedGrows(s: State, e: Event, t: State)
    requires Apply(s, e) == Some(t)
    ensures |s.posted| <= |t.posted| <= |s.posted| + 1
    ensures |t.posted| > |s.posted| ==> t.posted[|s.posted|].fate == Taken
  {
    if !e.Post? && !e.ClientAcquire? && !e.ClientCallback? {
      SamePosted(s, e, t);
    }
  }

  /** Some step of the run finds no client for entry `k`. */
  predicate EverFindsNone(s: State, events: seq<Event>, k: nat)
    requires Run(s, events).Some?
    decreases |events|
  {
    events != [] && (FindsNoClient(s, events[0], k) || EverFindsNone(Apply(s, events[0]).value, events[1..], k))
  }

  predicate IsDropped(s: State, k: nat) {
    k < |s.posted| && s.posted[k].fate == Dropped
  }

  /** Over whole runs: a result is dropped if and only if its acquire found no client. */
  lemma {:induction false} DroppedInRunIff(s: State, events: seq<Event>, k: nat)
    requires Run(s, events).Some? && !IsDropped(s, k)
    ensures IsDropped(Run(s, events).value, k) <==> EverFindsNone(s, events, k)
    decreases |events|
  {
    if events != [] {
      var t := Apply(s, events[0]).value;
      PostedGrows(s, events[0], t);
      if k < |s.posted| {
        DroppedIff(s, events[0], t, k);
      }
      if IsDropped(t, k) {
        DroppedStays(t, events[1..], k);
      } else {
        DroppedInRunIff(t, events[1..], k);
      }
    }
  }

  lemma {:induction false} DroppedStays(s: State, events: seq<Event>, k: nat)
    requires Run(s, events).Some? && IsDropped(s, k)
    ensures IsDropped(Run(s, events).value, k)
    decreases |events|
  {
    if events != [] {
      DroppedIff(s, events[0], Apply(s, events[0]).value, k);
      DroppedStays(Apply(s, events[0]).value, events[1..], k);
    }
  }

  lemma ClientStaysLive(s: State, e: Event, t: State)
    requires Apply(s, e) == Some(t) && LiveClient(s) && e != ClientClose
    ensures LiveClient(t)
  {
  }

  /** While the client does not close, no result is dropped. */
  lemma {:induction false} NoneDroppedWhileLive(s: State, events: seq<Event>, k: nat)
    requires Run(s, events).Some? && LiveClient(s) && ClientClose !in events && !IsDropped(s, k)
    ensures LiveClient(Run(s, events).value) && !IsDropped(Run(s, events).value, k)
    decreases |events|
  {
    if events != [] {
      var t := Apply(s, events[0]).value;
      ClientStaysLive(s, events[0], t);
      PostedGrows(s, events[0], t);
      if k < |s.posted| {
        DroppedIff(s, events[0], t, k);
      }
      NoneDroppedWhileLive(t, events[1..], k);
    }
  }

  lemma {:induction false} RefsCount(posted: seq<Posted>, k: nat)
    requires k < |posted| && posted[k].fate == Calling
    ensures ClientRefs(posted) > 0
  {
    if k > 0 {
      RefsCount(posted[1..], k - 1);
    }
  }

  /** From every reachable state a taken result whose client is live, and one whose callback is running in
      any case, can be delivered: with the request and the result that were posted, and nothing else
      changed but the callback's reference. */
  lemma ResultDelivered(s: State, k: nat) returns (t: State)
    requires Reachable(s) && k < |s.posted|
    requires s.posted[k].fate == Calling || (s.posted[k].fate == Taken && LiveClient(s))
    ensures ReachableFrom(s, t) && t.posted == s.posted[k := Posted(s.posted[k].request, s.posted[k].result, Delivered)]
    ensures t == s.(posted := t.posted, client := t.client)
    ensures LiveClient(t) <==> LiveClient(s)
  {
    assert Run(s, []) == Some(s);
    var u := s;
    if s.posted[k].fate == Taken {
      u := s.(posted := s.posted[k := s.posted[k].(fate := Calling)], client := AcquireRef(s.client));
      Extend(s, s, ClientAcquire(k), u);
    } else {
      ReachableInv(s);
      RefsCount(s.posted, k);
    }
    t := u.(posted := u.posted[k := u.posted[k].(fate := Delivered)], client := ReleaseRef(u.client));
    Extend(s, u, ClientCallback(k), t);
  }

  // ---------------------------------------------------------------- runs that trip the assertions

  lemma Singletons<T>()
    ensures forall b: T :: [] + [b] == [b] && [b][1..] == []
    ensures forall a: T, b: T :: [a][0 := b] == [b]
  {
  }

  const OPEN := Registration(true, false, 0)
  const HELD := Registration(true, false, 1)
  const ASK := Request(1, "a")
  const PENDED := NEW_IRP.(entering := false, routine := true)

  lemma ServiceOpened()
    ensures Reachable(INITIAL.(service := OPEN))
  {
    assert Run(INITIAL, []) == Some(INITIAL);
    Extend(INITIAL, INITIAL, ServiceOpen, INITIAL.(service := OPEN));
  }

  /** Issuing a GET on an empty queue, uninterrupted, pends it. */
  lemma GetPends(s: State, t: State)
    requires Reachable(s) && s.holder == Free && s.pendingIrp.None? && s.pendingRequest.None? && s.queue == []
    requires t == s.(irps := s.irps + [PENDED], pendingIrp := Some(|s.irps|))
    ensures Reachable(t)
  {
    var i := |s.irps|;
    var s1 := s.(irps := s.irps + [NEW_IRP]);
    Extend(INITIAL, s, GetStart, s1);
    var s2 := s.(irps := s.irps + [NEW_IRP.(entering := false)], holder := GetPopping(i));
    assert s1.irps[i := NEW_IRP.(entering := false)] == s2.irps;
    Extend(INITIAL, s1, GetLock(i), s2);
    var s3 := s2.(holder := GetPending(i));
    Extend(INITIAL, s2, GetPop, s3);
    var s4 := t.(holder := GetChecking(i));
    assert s3.irps[i := PENDED] == t.irps;
    Extend(INITIAL, s3, GetPend, s4);
    Extend(INITIAL, s4, GetCheck, t);
  }

  /** A push into an empty queue of an open service. */
  lemma PushInserts(s: State, t: State)
    requires Reachable(s) && s.service == OPEN && s.queue == [] && s.pushers == [] && s.nextId == 0 && s.accepted == []
    requires t == s.(queue := [ASK], pushers := [Pusher(ASK, MustNotify)], nextId := 1, accepted := [ASK], service := HELD)
    ensures Reachable(t)
  {
    Singletons<Pusher>();
    Singletons<Request>();
    var s1 := s.(pushers := [Pusher(ASK, Inserting)], nextId := 1);
    Extend(INITIAL, s, PushStart("a"), s1);
    Extend(INITIAL, s1, PushInsert(0), t);
  }

  const SERVED := NEW_IRP.(entering := false, output := Some(ASK), returning := Some(Success))

  /** An uninterrupted GET takes the queued request. */
  lemma GetTakes(s: State, t: State)
    requires Reachable(s) && s.holder == Free && s.pendingIrp.None? && s.pendingRequest.None?
    requires s.queue == [ASK] && s.irps == []
    requires t == s.(queue := [], irps := [SERVED], pendingRequest := Some(ASK))
    ensures Reachable(t)
  {
    Singletons<Irp>();
    Singletons<Request>();
    var s2 := s.(irps := [NEW_IRP.(entering := false)], holder := GetPopping(0));
    GetEnters(s, s2);
    Extend(INITIAL, s2, GetPop, t);
  }

  lemma GetEnters(s: State, t: State)
    requires Reachable(s) && s.holder == Free && s.pendingIrp.None? && s.pendingRequest.None? && s.irps == []
    requires t == s.(irps := [NEW_IRP.(entering := false)], holder := GetPopping(0))
    ensures Reachable(t)
  {
    Singletons<Irp>();
    var s1 := s.(irps := [NEW_IRP]);
    Extend(INITIAL, s, GetStart, s1);
    Extend(INITIAL, s1, GetLock(0), t);
  }

  /** A push whose notification has not run yet is overtaken: its request is taken and posted. */
  lemma Overtaken() returns (s: State)
    ensures Reachable(s) && s.holder == Free && s.pendingIrp.None? && s.pendingRequest.None? && s.queue == []
    ensures |s.pushers| == 1 && s.pushers[0].phase == MustNotify
  {
    ServiceOpened();
    var s1 := INITIAL.(queue := [ASK], pushers := [Pusher(ASK, MustNotify)], nextId := 1, accepted := [ASK], service := HELD);
    PushInserts(INITIAL.(service := OPEN), s1);
    var s2 := s1.(queue := [], irps := [SERVED], pendingRequest := Some(ASK));
    GetTakes(s1, s2);
    s := s2.(pendingRequest := None, posted := [Posted(ASK, 0, Taken)]);
    Singletons<Posted>();
    Extend(INITIAL, s2, Post(1, 0), s);
  }

  /** A second GET is pended before the overtaken push notifies. The notifier then finds an IRP
      but no request, contrary to its assertion. */
  lemma StaleNotification() returns (s: State)
    ensures Reachable(s) && s.holder.NotifyPopping? && s.queue == []
  {
    var s1 := Overtaken();
    var s2 := s1.(irps := s1.irps + [PENDED], pendingIrp := Some(|s1.irps|));
    GetPends(s1, s2);
    s := s2.(holder := NotifyPopping(0));
    Extend(INITIAL, s2, NotifyLock(0), s);
  }

  /** While the notifier is about to pop, the waiting IRP is cancelled. */
  lemma CancelDuringNotify(s: State, t: State)
    requires Reachable(s) && s.holder.NotifyPopping? && s.irps == [PENDED]
    requires t == s.(irps := [PENDED.(cancel := true, routine := false, cancelPhase := Called)])
    ensures Reachable(t)
  {
    Singletons<Irp>();
    var s1 := s.(irps := [PENDED.(cancel := true)]);
    Extend(INITIAL, s, CancelMark(0), s1);
    Extend(INITIAL, s1, CancelExchange(0), t);
  }

  /** A GET is pended, a request is pushed, and its notifier has the lock. */
  lemma NotifierAtWork() returns (s: State)
    ensures Reachable(s) && s.holder == NotifyPopping(0) && s.irps == [PENDED] && s.pendingIrp == Some(0)
    ensures s.queue == [ASK] && |s.pushers| == 1 && s.pendingRequest.None?
  {
    ServiceOpened();
    Singletons<Irp>();
    var s0 := INITIAL.(service := OPEN);
    var s1 := s0.(irps := [PENDED], pendingIrp := Some(0));
    GetPends(s0, s1);
    var s2 := s1.(queue := [ASK], pushers := [Pusher(ASK, MustNotify)], nextId := 1, accepted := [ASK], service := HELD);
    PushInserts(s1, s2);
    s := s2.(holder := NotifyPopping(0));
    Extend(INITIAL, s2, NotifyLock(0), s);
  }

  /** Cancellation meets notification: the notifier has taken the IRP and a request, but the
      cancel routine has already been called for it. */
  lemma CancelMeetsNotify() returns (s: State)
    ensures Reachable(s) && s.holder == NotifyExchanging(0, 0) && |s.irps| == 1 && |s.pushers| == 1 && !s.irps[0].routine
    ensures s.irps[0].cancelPhase == Called && s.pendingIrp.None?
  {
    var s1 := NotifierAtWork();
    var cancelled := PENDED.(cancel := true, routine := false, cancelPhase := Called);
    var s2 := s1.(irps := [cancelled]);
    CancelDuringNotify(s1, s2);
    Singletons<Irp>();
    Singletons<Request>();
    s := s2.(irps := [cancelled.(output := Some(ASK))], queue := [], pendingIrp := None, pendingRequest := Some(ASK),
    holder := NotifyExchanging(0, 0));
    Extend(INITIAL, s2, NotifyPop, s);
  }

  /** From there the cancel routine runs while its IRP is not `PendingIrp`, contrary to its assertion. */
  lemma CancelFindsOtherIrp() returns (s: State)
    ensures Reachable(s) && |s.irps| == 1 && s.holder == Free && s.irps[0].cancelPhase == Called && s.pendingIrp != Some(0)
  {
    var r := CancelMeetsNotify();
    s := Apply(r, NotifyExchange).value;
    Extend(INITIAL, r, NotifyExchange, s);
  }
}
