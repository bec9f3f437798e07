/** Admission of runs in two layers: `AgentService.run` in front of `AgentLoop.run_input`.

    One agent and its one session. Each step is what one call does between two awaits; the steps of
    any number of calls, lease operations and disposals interleave freely, and every await may end
    in a refusal, an exception or a cancellation. In every interleaving at most one turn task runs
    (`OneTurnTask`). When all runs come through the service, a run is over, maintenance included,
    before the next one is let in (`ServiceRunsDoNotOverlap`), which direct runs do not promise
    (`DirectRunsOverlap`), and the runtime is called at most once per request between disposals
    (`InvokedAtMostOnce`). A call keeps its admission for good exactly if its first notification was
    cancelled (`KeptIffNotificationCancelled`, `LeakedAdmissionStays`); once all calls have returned the
    agent admits every request it has not answered (`ReturnedCallsFreeTheAgent`). Who is let in at any
    moment is `AdmitsIff`, whose after-run hook runs `HookIffExecuted`, what becomes of leases `LeasesGoTo`. */
module Admission {
  import opened Prelude

  /** Where a call waits. `Notify` to `AfterRun` lie inside the service's admission, `Preparing` to
      `Completing` inside the loop's reservation. */
  datatype Pc =
    | Notify
    | RequestState
    | Preparing
    | Executing
    | Completing(executed: bool)
    | AfterRun
    | Returning
    | Done
    | Leaked

  datatype Call = Call(viaService: bool, req: string, pc: Pc)

  datatype Lease = Lease(id: string, req: string)

  /** The loop's part: `reservation` and `task` name the call that set them (the code stores only
      membership, and clearing does not ask who set them). */
  datatype Loop = Loop(reservation: Option<nat>, task: Option<nat>, maintenance: bool)

  /** The service's part; `invoked` is the history of runtime calls since the last disposal. */
  datatype Service = Service(
    inflight: Option<nat>,
    paused: bool,
    present: bool,
    completed: set<string>,
    leases: seq<Lease>,
    invoked: seq<string>)

  datatype State = State(calls: seq<Call>, loop: Loop, service: Service)

  const Initial := State([], Loop(None, None, false), Service(None, false, true, {}, [], []))

  datatype Choice = Proceed | Refuse | Break

  datatype Event =
    | ServiceRun(req: string)
    | DirectRun(req: string)
    | Step(i: nat, choice: Choice)
    | SetMaintenance(i: nat, active: bool)
    | SetPaused(paused: bool)
    | Dispose
    | Create
    | TryReserve(id: string, req: string)
    | Release(id: string)

  predicate Active(l: Loop) {
    l.reservation.Some? || l.task.Some? || l.maintenance
  }

  // ---------------------------------------------------------------- the steps

  function Consumed(leases: seq<Lease>, req: string): seq<Lease> {
    if leases == [] then []
    else if leases[0].req == req then leases[1..]
    else [leases[0]] + Consumed(leases[1..], req)
  }

  function Without(leases: seq<Lease>, id: string): seq<Lease> {
    if leases == [] then []
    else if leases[0].id == id then leases[1..]
    else [leases[0]] + Without(leases[1..], id)
  }

  predicate Admits(s: State, req: string) {
    && s.service.present && req !in s.service.completed && !s.service.paused
    && s.service.inflight.None? && !Active(s.loop)
  }

  /** Where a call goes when its `run_input` is over. */
  function Exited(c: Call): Call {
    c.(pc := if c.viaService then Returning else Done)
  }

  /** The `finally` block: give up the reservation, then run the after-run hook of an executed turn. */
  function Finally(c: Call, l: Loop, executed: bool): (Call, Loop) {
    if executed then (c.(pc := AfterRun), Loop(None, None, l.maintenance))
    else (Exited(c), Loop(None, None, false))
  }

  /** What call number `i` does next, and to the loop. */
  function StepLoop(c: Call, i: nat, l: Loop, choice: Choice): (Call, Loop) {
    match c.pc
    case Notify => (c.(pc := if choice == Break then Leaked else RequestState), l)
    case RequestState =>
      if choice != Proceed || Active(l) then (Exited(c), l) else (c.(pc := Preparing), l.(reservation := Some(i)))
    case Preparing =>
      (match choice
       case Proceed => (c.(pc := Executing), l.(task := Some(i)))
       case Refuse => Finally(c, l, false)
       case Break => (c.(pc := Completing(false)), l))
    case Executing => (c.(pc := Completing(true)), l)
    case Completing(executed) => Finally(c, l, executed)
    case AfterRun => (Exited(c), if choice == Break then l else l.(maintenance := false))
    case Returning => (c.(pc := Done), l)
    case _ => (c, l)
  }

  /** What the step from `c` to `c'` does to the service: calling the runtime, recording its result. */
  function StepService(c: Call, c': Call, service: Service): Service {
    if !c.viaService then service
    else if c.pc == Notify && c'.pc == RequestState then service.(invoked := service.invoked + [c.req])
    else if c.pc != Returning && c'.pc == Returning then
      service.(completed := service.completed + {c.req}, inflight := None)
    else service
  }

  function StepCall(s: State, i: nat, choice: Choice): State
    requires i < |s.calls|
  {
    var (c, l) := StepLoop(s.calls[i], i, s.loop, choice);
    State(s.calls[i := c], l, StepService(s.calls[i], c, s.service))
  }

  function Next(s: State, e: Event): State {
    match e
    case ServiceRun(req) =>
      if Admits(s, req) then
        State(s.calls + [Call(true, req, Notify)], s.loop,
          s.service.(inflight := Some(|s.calls|), leases := Consumed(s.service.leases, req)))
      else s
    case DirectRun(req) => s.(calls := s.calls + [Call(false, req, RequestState)])
    case Step(i, choice) => if i < |s.calls| then StepCall(s, i, choice) else s
    case SetMaintenance(i, active) =>
      if i < |s.calls| && s.calls[i].pc == AfterRun then s.(loop := s.loop.(maintenance := active)) else s
    case SetPaused(paused) => s.(service := s.service.(paused := paused))
    case Dispose => s.(service := s.service.(present := false, completed := {}, invoked := []))
    case Create => s.(service := s.service.(present := true))
    case TryReserve(id, req) =>
      if s.service.present && req != "" && s.service.inflight.None? && !Active(s.loop) && s.service.leases == [] then
        s.(service := s.service.(leases := [Lease(id, req)]))
      else s
    case Release(id) => s.(service := s.service.(leases := Without(s.service.leases, id)))
  }

  function Run(s: State, events: seq<Event>): State {
    if events == [] then s else Next(Run(s, events[..|events| - 1]), events[|events| - 1])
  }

  // ---------------------------------------------------------------- regions and their owners

  /** The call named by `owner`, and no other, is in `region`. */
  predicate OwnerIs(calls: seq<Call>, region: Call -> bool, owner: Option<nat>) {
    && (owner.Some? ==> owner.value < |calls|)
    && forall i :: 0 <= i < |calls| ==> (region(calls[i]) <==> owner == Some(i))
  }

  /** The owner after `c` replaced the call `i`. */
  function OwnerAfter(region: Call -> bool, owner: Option<nat>, i: nat, c: Call): Option<nat> {
    if region(c) then Some(i) else if owner == Some(i) then None else owner
  }

  lemma OwnerAppend(calls: seq<Call>, region: Call -> bool, owner: Option<nat>, c: Call)
    requires OwnerIs(calls, region, owner)
    requires !region(c) || owner.None?
    ensures OwnerIs(calls + [c], region, if region(c) then Some(|calls|) else owner)
  {
  }

  /** Moving a call into, out of or within a region. */
  lemma OwnerMove(calls: seq<Call>, region: Call -> bool, owner: Option<nat>, i: nat, c: Call)
    requires OwnerIs(calls, region, owner) && i < |calls|
    requires region(c) ==> owner == None || owner == Some(i)
    ensures OwnerIs(calls[i := c], region, OwnerAfter(region, owner, i, c))
  {
  }

  // ---------------------------------------------------------------- the loop's reservation

  predicate Holding(c: Call) {
    c.pc == Preparing || c.pc == Executing || c.pc.Completing?
  }

  predicate Reserved(s: State) {
    OwnerIs(s.calls, Holding, s.loop.reservation)
    && (s.loop.task.Some? ==> s.loop.task == s.loop.reservation)
  }

  /** A step reserves or frees exactly as its call enters or leaves the region. */
  lemma StepReserves(c: Call, i: nat, l: Loop, choice: Choice)
    requires Holding(c) <==> l.reservation == Some(i)
    requires l.task.Some? ==> l.task == l.reservation
    ensures var (c', l') := StepLoop(c, i, l, choice);
      && c'.viaService == c.viaService && c'.req == c.req
      && (Holding(c') ==> l.reservation == None || l.reservation == Some(i))
      && l'.reservation == OwnerAfter(Holding, l.reservation, i, c')
      && (l'.task.Some? ==> l'.task == l'.reservation)
  {
  }

  lemma NextReserved(s: State, e: Event)
    requires Reserved(s)
    ensures Reserved(Next(s, e))
  {
    match e
    case ServiceRun(req) => OwnerAppend(s.calls, Holding, s.loop.reservation, Call(true, req, Notify));
    case DirectRun(req) => OwnerAppend(s.calls, Holding, s.loop.reservation, Call(false, req, RequestState));
    case Step(i, choice) =>
      if i < |s.calls| {
        StepReserves(s.calls[i], i, s.loop, choice);
        OwnerMove(s.calls, Holding, s.loop.reservation, i, StepLoop(s.calls[i], i, s.loop, choice).0);
      }
    case _ =>
  }

  lemma {:induction false} RunReserved(events: seq<Event>)
    ensures Reserved(Run(Initial, events))
  {
    if events != [] {
      RunReserved(events[..|events| - 1]);
      NextReserved(Run(Initial, events[..|events| - 1]), events[|events| - 1]);
    }
  }

  /** At most one turn task of the session is alive, whatever calls, cancellations, exceptions and
      maintenance interleave. */
  lemma OneTurnTask(events: seq<Event>, i: nat, j: nat)
    requires var calls := Run(Initial, events).calls;
      i < |calls| && j < |calls| && calls[i].pc == Executing && calls[j].pc == Executing
    ensures i == j
  {
    RunReserved(events);
    var s := Run(Initial, events);
    assert Holding(s.calls[i]) && Holding(s.calls[j]);
  }

  // ---------------------------------------------------------------- the service's admission

  predicate Admitted(c: Call) {
    c.viaService && c.pc != Returning && c.pc != Done
  }

  /** The request whose runtime call may still be open. */
  function Open(calls: seq<Call>, inflight: Option<nat>): set<string> {
    if inflight.Some? && inflight.value < |calls| && calls[inflight.value].pc != Notify then
      {calls[inflight.value].req}
    else {}
  }

  predicate Distinct(reqs: seq<string>) {
    reqs == [] || (Distinct(reqs[..|reqs| - 1]) && reqs[|reqs| - 1] !in reqs[..|reqs| - 1])
  }

  function Elements(reqs: seq<string>): set<string> {
    set r | r in reqs
  }

  /** Every request the runtime was called for is recorded as completed or still open. */
  predicate InvokedOnce(calls: seq<Call>, service: Service) {
    && Distinct(service.invoked)
    && Elements(service.invoked) <= service.completed + Open(calls, service.inflight)
    && (service.inflight.Some? && service.inflight.value < |calls| && calls[service.inflight.value].pc == Notify ==>
          calls[service.inflight.value].req !in service.completed)
  }

  predicate Serviced(s: State) {
    OwnerIs(s.calls, Admitted, s.service.inflight) && InvokedOnce(s.calls, s.service)
  }

  /** A step leaves the admission region exactly when it returns from the service. */
  lemma StepAdmits(c: Call, i: nat, l: Loop, service: Service, choice: Choice)
    requires Admitted(c) <==> service.inflight == Some(i)
    ensures var c' := StepLoop(c, i, l, choice).0;
      && c'.viaService == c.viaService && c'.req == c.req
      && (Admitted(c') ==> service.inflight == Some(i))
      && StepService(c, c', service).inflight == OwnerAfter(Admitted, service.inflight, i, c')
  {
  }

  lemma InvokedAppend(calls: seq<Call>, service: Service, req: string)
    requires service.inflight.Some? && service.inflight.value < |calls|
    requires Distinct(service.invoked) && Elements(service.invoked) <= service.completed && req !in service.completed
    ensures Distinct(service.invoked + [req])
    ensures Elements(service.invoked + [req]) == Elements(service.invoked) + {req}
  {
    assert (service.invoked + [req])[..|service.invoked|] == service.invoked;
    assert forall r :: r in service.invoked ==> r in Elements(service.invoked);
  }

  lemma OtherStepInvokes(s: State, i: nat, choice: Choice)
    requires Serviced(s) && i < |s.calls| && s.service.inflight != Some(i)
    ensures InvokedOnce(StepCall(s, i, choice).calls, StepCall(s, i, choice).service)
  {
    StepAdmits(s.calls[i], i, s.loop, s.service, choice);
  }

  lemma CallInvokes(calls: seq<Call>, service: Service, i: nat)
    requires i < |calls| && calls[i].pc == Notify && service.inflight == Some(i) && InvokedOnce(calls, service)
    ensures InvokedOnce(calls[i := calls[i].(pc := RequestState)],
              service.(invoked := service.invoked + [calls[i].req]))
  {
    var later := calls[i := calls[i].(pc := RequestState)];
    OpensCall(calls, later, i);
    InvokedAppend(calls, service, calls[i].req);
  }

  lemma OpensCall(calls: seq<Call>, later: seq<Call>, i: nat)
    requires i < |calls| && calls[i].pc == Notify && later == calls[i := calls[i].(pc := RequestState)]
    ensures Open(calls, Some(i)) == {} && Open(later, Some(i)) == {calls[i].req}
  {
  }

  lemma ReturnInvokes(calls: seq<Call>, service: Service, i: nat)
    requires i < |calls| && service.inflight == Some(i) && InvokedOnce(calls, service)
    ensures InvokedOnce(calls[i := calls[i].(pc := Returning)],
              service.(completed := service.completed + {calls[i].req}, inflight := None))
  {
  }

  lemma MoveInvokes(calls: seq<Call>, service: Service, i: nat, pc: Pc)
    requires i < |calls| && service.inflight == Some(i) && InvokedOnce(calls, service) && pc != Notify
    ensures InvokedOnce(calls[i := calls[i].(pc := pc)], service)
  {
  }

  lemma OwnStepInvokes(s: State, i: nat, choice: Choice)
    requires Serviced(s) && i < |s.calls| && s.service.inflight == Some(i)
    ensures InvokedOnce(StepCall(s, i, choice).calls, StepCall(s, i, choice).service)
  {
    var c := s.calls[i];
    assert Admitted(c);
    var c' := StepLoop(c, i, s.loop, choice).0;
    OwnStep(c, i, s.loop, choice);
    if c.pc == Notify && c'.pc == RequestState {
      CallInvokes(s.calls, s.service, i);
    } else if c'.pc == Returning {
      ReturnInvokes(s.calls, s.service, i);
    } else {
      MoveInvokes(s.calls, s.service, i, c'.pc);
    }
  }

  lemma OwnStep(c: Call, i: nat, l: Loop, choice: Choice)
    requires Admitted(c)
    ensures var c' := StepLoop(c, i, l, choice).0; c' == c.(pc := c'.pc) && c'.pc != Notify
  {
  }

  lemma StepServiced(s: State, i: nat, choice: Choice)
    requires Serviced(s) && i < |s.calls|
    ensures Serviced(StepCall(s, i, choice))
  {
    StepAdmits(s.calls[i], i, s.loop, s.service, choice);
    OwnerMove(s.calls, Admitted, s.service.inflight, i, StepLoop(s.calls[i], i, s.loop, choice).0);
    if s.service.inflight == Some(i) {
      OwnStepInvokes(s, i, choice);
    } else {
      OtherStepInvokes(s, i, choice);
    }
  }

  lemma NextServiced(s: State, e: Event)
    requires Serviced(s)
    ensures Serviced(Next(s, e))
  {
    match e
    case ServiceRun(req) =>
      if Admits(s, req) {
        OwnerAppend(s.calls, Admitted, s.service.inflight, Call(true, req, Notify));
      }
    case DirectRun(req) => OwnerAppend(s.calls, Admitted, s.service.inflight, Call(false, req, RequestState));
    case Step(i, choice) =>
      if i < |s.calls| {
        StepServiced(s, i, choice);
      }
    case _ =>
  }

  lemma {:induction false} RunServiced(events: seq<Event>)
    ensures Serviced(Run(Initial, events))
  {
    if events != [] {
      RunServiced(events[..|events| - 1]);
      NextServiced(Run(Initial, events[..|events| - 1]), events[|events| - 1]);
    }
  }

  /** Between two disposals the runtime is called at most once for each request. */
  lemma InvokedAtMostOnce(events: seq<Event>)
    ensures Distinct(Run(Initial, events).service.invoked)
  {
    RunServiced(events);
  }

  predicate ThroughService(events: seq<Event>) {
    events == []
    || (ThroughService(events[..|events| - 1]) && !events[|events| - 1].DirectRun?)
  }

  predicate AllViaService(calls: seq<Call>) {
    forall i :: 0 <= i < |calls| ==> calls[i].viaService
  }

  lemma {:induction false} RunViaService(events: seq<Event>)
    requires ThroughService(events)
    ensures AllViaService(Run(Initial, events).calls)
  {
    if events != [] {
      var front, last := events[..|events| - 1], events[|events| - 1];
      RunViaService(front);
      var s := Run(Initial, front);
      if last.Step? && last.i < |s.calls| {
        SameWay(s.calls[last.i], last.i, s.loop, last.choice);
      }
    }
  }

  lemma SameWay(c: Call, i: nat, l: Loop, choice: Choice)
    ensures StepLoop(c, i, l, choice).0.viaService == c.viaService
  {
  }

  predicate InRun(pc: Pc) {
    pc != Returning && pc != Done
  }

  /** When all runs come through the service no two of them are open at once: none starts a turn
      while the after-run maintenance of an earlier one is still going. */
  lemma ServiceRunsDoNotOverlap(events: seq<Event>, i: nat, j: nat)
    requires ThroughService(events)
    requires var calls := Run(Initial, events).calls;
      i < |calls| && j < |calls| && InRun(calls[i].pc) && InRun(calls[j].pc)
    ensures i == j
  {
    RunServiced(events);
    RunViaService(events);
    var s := Run(Initial, events);
    assert Admitted(s.calls[i]) && Admitted(s.calls[j]);
  }

  /** A direct run gets past an earlier one's after-run hook exactly when nothing marks the session
      as busy, that is unless the hook has declared maintenance. */
  lemma DirectRunsOverlapIff(s: State, i: nat, j: nat)
    requires i < |s.calls| && j < |s.calls| && s.calls[i].pc == AfterRun && s.calls[j].pc == RequestState
    ensures var s' := Next(Next(s, Step(j, Proceed)), Step(j, Proceed));
      s'.calls[j].pc == Executing && s'.calls[i].pc == AfterRun <==> !Active(s.loop)
  {
    assert i != j;
  }

  lemma Reach(events: seq<Event>, e: Event, s: State)
    requires Next(Run(Initial, events), e) == s
    ensures Run(Initial, events + [e]) == s
  {
    assert (events + [e])[..|events|] == events;
  }

  lemma ReachAfterRun(req: string) returns (events: seq<Event>)
    ensures Run(Initial, events) == State([Call(false, req, AfterRun)], Initial.loop, Initial.service)
  {
    var held, busy := Loop(Some(0), None, false), Loop(Some(0), Some(0), false);
    events := [];
    Reach(events, DirectRun(req), State([Call(false, req, RequestState)], Initial.loop, Initial.service));
    events := events + [DirectRun(req)];
    Reach(events, Step(0, Proceed), State([Call(false, req, Preparing)], held, Initial.service));
    events := events + [Step(0, Proceed)];
    Reach(events, Step(0, Proceed), State([Call(false, req, Executing)], busy, Initial.service));
    events := events + [Step(0, Proceed)];
    Reach(events, Step(0, Proceed), State([Call(false, req, Completing(true))], busy, Initial.service));
    events := events + [Step(0, Proceed)];
    Reach(events, Step(0, Proceed), State([Call(false, req, AfterRun)], Initial.loop, Initial.service));
    events := events + [Step(0, Proceed)];
  }

  /** Such a state is reachable: the reservation is given up before the hook is awaited. */
  lemma DirectRunsOverlap(first: string, second: string) returns (events: seq<Event>)
    ensures var s := Run(Initial, events);
      |s.calls| == 2 && s.calls[0].pc == AfterRun && s.calls[1].pc == Executing
  {
    events := ReachAfterRun(first);
    var both := State([Call(false, first, AfterRun), Call(false, second, RequestState)], Initial.loop, Initial.service);
    Reach(events, DirectRun(second), both);
    events := events + [DirectRun(second)];
    DirectRunsOverlapIff(both, 0, 1);
    Reach(events, Step(1, Proceed), Next(both, Step(1, Proceed)));
    events := events + [Step(1, Proceed)];
    Reach(events, Step(1, Proceed), Next(Next(both, Step(1, Proceed)), Step(1, Proceed)));
    events := events + [Step(1, Proceed)];
  }

  // ---------------------------------------------------------------- who gives the admission up

  /** The service call is over: it has handed its outcome back, or was cancelled before it called the
      runtime. */
  predicate Over(c: Call) {
    c.viaService && (c.pc == Returning || c.pc == Done || c.pc == Leaked)
  }

  /** Call `i` was cancelled while it awaited its first notification. */
  predicate NotificationCancelled(events: seq<Event>, i: nat) {
    events != []
    && var front, last := events[..|events| - 1], events[|events| - 1];
       || NotificationCancelled(front, i)
       || (last == Step(i, Break) && AtNotify(Run(Initial, front).calls, i))
  }

  predicate AtNotify(calls: seq<Call>, i: nat) {
    i < |calls| && calls[i].pc == Notify
  }

  predicate IsLeaked(calls: seq<Call>, i: nat) {
    i < |calls| && calls[i].pc == Leaked
  }

  lemma StepLeaks(c: Call, i: nat, l: Loop, choice: Choice)
    ensures StepLoop(c, i, l, choice).0.pc == Leaked <==> c.pc == Leaked || (c.pc == Notify && choice == Break)
  {
  }

  lemma NextLeaks(s: State, e: Event, i: nat)
    ensures IsLeaked(Next(s, e).calls, i) <==> IsLeaked(s.calls, i) || (e == Step(i, Break) && AtNotify(s.calls, i))
  {
    if e.Step? && e.i < |s.calls| {
      StepLeaks(s.calls[e.i], e.i, s.loop, e.choice);
    }
  }

  lemma {:induction false} LeakedIff(events: seq<Event>, i: nat)
    ensures IsLeaked(Run(Initial, events).calls, i) <==> NotificationCancelled(events, i)
  {
    if events != [] {
      LeakedIff(events[..|events| - 1], i);
      NextLeaks(Run(Initial, events[..|events| - 1]), events[|events| - 1], i);
    }
  }

  /** In every run: of the service calls that are over, exactly the one whose first notification was
      cancelled still has the agent's admission; every other one has given it up. */
  lemma KeptIffNotificationCancelled(events: seq<Event>, i: nat)
    requires i < |Run(Initial, events).calls| && Over(Run(Initial, events).calls[i])
    ensures Run(Initial, events).service.inflight == Some(i) <==> NotificationCancelled(events, i)
  {
    var s := Run(Initial, events);
    RunServiced(events);
    LeakedIff(events, i);
    assert Admitted(s.calls[i]) <==> s.calls[i].pc == Leaked;
  }

  /** Every call has handed its outcome back. */
  predicate AllReturned(calls: seq<Call>) {
    forall i :: 0 <= i < |calls| ==> calls[i].pc == Returning || calls[i].pc == Done
  }

  /** An after-run hook was cancelled without having taken its declaration of maintenance back. */
  predicate MaintenanceCutOff(events: seq<Event>) {
    events != []
    && var front, last := events[..|events| - 1], events[|events| - 1];
       MaintenanceCutOff(front) || CutsOff(Run(Initial, front), last)
  }

  predicate CutsOff(s: State, e: Event) {
    e.Step? && e.choice == Break && s.loop.maintenance && e.i < |s.calls| && s.calls[e.i].pc == AfterRun
  }

  /** Maintenance is declared only while an after-run hook goes on. */
  predicate MaintenanceHasHook(s: State) {
    s.loop.maintenance ==> exists i :: 0 <= i < |s.calls| && s.calls[i].pc == AfterRun
  }

  lemma NextMaintenance(s: State, e: Event)
    requires MaintenanceHasHook(s) && !CutsOff(s, e)
    ensures MaintenanceHasHook(Next(s, e))
  {
    var t := Next(s, e);
    if t.loop.maintenance && s.loop.maintenance {
      var i :| 0 <= i < |s.calls| && s.calls[i].pc == AfterRun;
      assert t.calls[i].pc == AfterRun;
    }
  }

  lemma {:induction false} RunMaintenance(events: seq<Event>)
    requires !MaintenanceCutOff(events)
    ensures MaintenanceHasHook(Run(Initial, events))
  {
    if events != [] {
      RunMaintenance(events[..|events| - 1]);
      NextMaintenance(Run(Initial, events[..|events| - 1]), events[|events| - 1]);
    }
  }

  /** Once all calls have returned, neither an admission nor a reservation nor a turn task is left, and
      no maintenance unless a hook was cut off in it: the agent admits exactly the requests it has not
      answered, if it is there and not paused. */
  lemma ReturnedCallsFreeTheAgent(events: seq<Event>, req: string)
    requires AllReturned(Run(Initial, events).calls)
    ensures var s := Run(Initial, events);
      && s.service.inflight == None && s.loop.reservation == None && s.loop.task == None
      && (s.loop.maintenance ==> MaintenanceCutOff(events))
      && (Admits(s, req) <==>
            s.service.present && !s.service.paused && req !in s.service.completed && !s.loop.maintenance)
  {
    var s := Run(Initial, events);
    RunServiced(events);
    RunReserved(events);
    assert forall i :: 0 <= i < |s.calls| ==> !Admitted(s.calls[i]) && !Holding(s.calls[i]);
    if !MaintenanceCutOff(events) {
      RunMaintenance(events);
    }
  }

  // ---------------------------------------------------------------- who is let in, and whose hook runs

  /** In every run a request is admitted exactly if the agent is there, has not answered it and is not
      paused, no service call keeps the admission, no call is in its turn and no maintenance is on. */
  lemma AdmitsIff(events: seq<Event>, req: string)
    ensures var s := Run(Initial, events);
      Admits(s, req) <==>
        && s.service.present && req !in s.service.completed && !s.service.paused && !s.loop.maintenance
        && forall i :: 0 <= i < |s.calls| ==>
             (s.calls[i].viaService ==> s.calls[i].pc == Returning || s.calls[i].pc == Done)
             && s.calls[i].pc != Preparing && s.calls[i].pc != Executing && !s.calls[i].pc.Completing?
  {
    var s := Run(Initial, events);
    RunServiced(events);
    RunReserved(events);
    assert forall i :: 0 <= i < |s.calls| ==> (Admitted(s.calls[i]) <==> s.service.inflight == Some(i));
    assert forall i :: 0 <= i < |s.calls| ==> (Holding(s.calls[i]) <==> s.loop.reservation == Some(i));
  }

  predicate EverAt(events: seq<Event>, i: nat, pc: Pc) {
    || (i < |Run(Initial, events).calls| && Run(Initial, events).calls[i].pc == pc)
    || (events != [] && EverAt(events[..|events| - 1], i, pc))
  }

  /** What a call at `pc` has been through: a turn, an after-run hook. */
  predicate Past(pc: Pc, executed: bool, hooked: bool) {
    match pc
    case Executing => executed && !hooked
    case Completing(e) => executed == e && !hooked
    case AfterRun => executed && hooked
    case Returning => executed == hooked
    case Done => executed == hooked
    case _ => !executed && !hooked
  }

  predicate PastOf(calls: seq<Call>, i: nat, executed: bool, hooked: bool) {
    if i < |calls| then Past(calls[i].pc, executed, hooked) else !executed && !hooked
  }

  lemma StepPast(c: Call, i: nat, l: Loop, choice: Choice, executed: bool, hooked: bool)
    requires Past(c.pc, executed, hooked)
    ensures var pc := StepLoop(c, i, l, choice).0.pc;
      Past(pc, executed || pc == Executing, hooked || pc == AfterRun)
  {
  }

  lemma NextPast(s: State, e: Event, i: nat, executed: bool, hooked: bool)
    requires PastOf(s.calls, i, executed, hooked)
    ensures var calls := Next(s, e).calls;
      PastOf(calls, i, executed || (i < |calls| && calls[i].pc == Executing),
             hooked || (i < |calls| && calls[i].pc == AfterRun))
  {
    if e.Step? && e.i == i && i < |s.calls| {
      StepPast(s.calls[i], i, s.loop, e.choice, executed, hooked);
    }
  }

  lemma {:induction false} RunPast(events: seq<Event>, i: nat)
    ensures PastOf(Run(Initial, events).calls, i, EverAt(events, i, Executing), EverAt(events, i, AfterRun))
  {
    if events != [] {
      var front := events[..|events| - 1];
      RunPast(front, i);
      NextPast(Run(Initial, front), events[|events| - 1], i, EverAt(front, i, Executing), EverAt(front, i, AfterRun));
    }
  }

  /** In every run a call that has left its turn goes through the after-run hook exactly if the turn was
      executed, however the turn and the hook ended. */
  lemma HookIffExecuted(events: seq<Event>, i: nat)
    requires i < |Run(Initial, events).calls|
    ensures var pc := Run(Initial, events).calls[i].pc;
      && (pc == Returning || pc == Done ==> (EverAt(events, i, AfterRun) <==> EverAt(events, i, Executing)))
      && (EverAt(events, i, AfterRun) ==> EverAt(events, i, Executing))
  {
    RunPast(events, i);
  }

  // ---------------------------------------------------------------- runs that get there

  lemma ReachExecuting(req: string) returns (events: seq<Event>)
    ensures Run(Initial, events) == State([Call(true, req, Executing)], Loop(Some(0), Some(0), false),
      Service(Some(0), false, true, {}, [], [req]))
  {
    var held, busy := Loop(Some(0), None, false), Loop(Some(0), Some(0), false);
    var open := Service(Some(0), false, true, {}, [], []);
    var invoked := Service(Some(0), false, true, {}, [], [req]);
    events := [];
    Reach(events, ServiceRun(req), State([Call(true, req, Notify)], Initial.loop, open));
    events := events + [ServiceRun(req)];
    Reach(events, Step(0, Proceed), State([Call(true, req, RequestState)], Initial.loop, invoked));
    events := events + [Step(0, Proceed)];
    Reach(events, Step(0, Proceed), State([Call(true, req, Preparing)], held, invoked));
    events := events + [Step(0, Proceed)];
    Reach(events, Step(0, Proceed), State([Call(true, req, Executing)], busy, invoked));
    events := events + [Step(0, Proceed)];
  }

  /** A run that went through all its stages: every other request is admitted next, and the same
      request is answered from its recorded result. */
  lemma ReachFinished(req: string) returns (events: seq<Event>)
    ensures var s := Run(Initial, events);
      && s.calls == [Call(true, req, Done)] && s.service.invoked == [req] && s.service.completed == {req}
      && forall other :: Admits(s, other) <==> other != req
  {
    var busy := Loop(Some(0), Some(0), false);
    var invoked := Service(Some(0), false, true, {}, [], [req]);
    events := ReachExecuting(req);
    Reach(events, Step(0, Proceed), State([Call(true, req, Completing(true))], busy, invoked));
    events := events + [Step(0, Proceed)];
    Reach(events, Step(0, Proceed), State([Call(true, req, AfterRun)], Initial.loop, invoked));
    events := events + [Step(0, Proceed)];
    var more := LeaveAfterRun(events, req);
    events := more;
  }

  lemma LeaveAfterRun(events: seq<Event>, req: string) returns (more: seq<Event>)
    requires Run(Initial, events)
          == State([Call(true, req, AfterRun)], Initial.loop, Service(Some(0), false, true, {}, [], [req]))
    ensures Run(Initial, more)
         == State([Call(true, req, Done)], Initial.loop, Service(None, false, true, {req}, [], [req]))
  {
    var after := Service(None, false, true, {req}, [], [req]);
    Reach(events, Step(0, Proceed), State([Call(true, req, Returning)], Initial.loop, after));
    more := events + [Step(0, Proceed)];
    Reach(more, Step(0, Proceed), State([Call(true, req, Done)], Initial.loop, after));
    more := more + [Step(0, Proceed)];
  }

  /** The first notification of the first call is cancelled: nothing is left running, and the admission
      is kept. */
  lemma ReachLeaked(req: string) returns (events: seq<Event>)
    ensures NotificationCancelled(events, 0)
    ensures Run(Initial, events)
         == State([Call(true, req, Leaked)], Initial.loop, Service(Some(0), false, true, {}, [], []))
  {
    var open := Service(Some(0), false, true, {}, [], []);
    events := [];
    Reach(events, ServiceRun(req), State([Call(true, req, Notify)], Initial.loop, open));
    events := events + [ServiceRun(req)];
    Reach(events, Step(0, Break), State([Call(true, req, Leaked)], Initial.loop, open));
    events := events + [Step(0, Break)];
    LeakedIff(events, 0);
  }

  // ---------------------------------------------------------------- leases and the leak

  lemma {:induction false} FewerLeases(leases: seq<Lease>, req: string, id: string)
    ensures |Consumed(leases, req)| <= |leases| && |Without(leases, id)| <= |leases|
  {
    if leases != [] {
      FewerLeases(leases[1..], req, id);
    }
  }

  lemma {:induction false} AtMostOneLease(events: seq<Event>)
    ensures |Run(Initial, events).service.leases| <= 1
  {
    if events != [] {
      var s := Run(Initial, events[..|events| - 1]);
      AtMostOneLease(events[..|events| - 1]);
      match events[|events| - 1]
      case ServiceRun(req) => FewerLeases(s.service.leases, req, "");
      case Release(id) => FewerLeases(s.service.leases, "", id);
      case _ =>
    }
  }

  lemma OneLeaseTaken(leases: seq<Lease>, req: string, id: string)
    requires |leases| <= 1
    ensures forall x :: x in Consumed(leases, req) <==> x in leases && x.req != req
    ensures forall x :: x in Without(leases, id) <==> x in leases && x.id != id
  {
    if leases != [] {
      assert leases == [leases[0]] && leases[1..] == [];
      assert Consumed([], req) == [] && Without([], id) == [];
    }
  }

  /** What a step makes of the outstanding leases: a run takes the one for its request, a release the one with
      its id, and one is granted exactly if the agent is there and free and none is outstanding. */
  ghost predicate LeasesAfter(s: State, e: Event, left: seq<Lease>) {
    match e
    case ServiceRun(req) =>
      forall x :: x in left <==> x in s.service.leases && !(x.req == req && Admits(s, req))
    case Release(id) => forall x :: x in left <==> x in s.service.leases && x.id != id
    case TryReserve(id, req) =>
      var free := s.service.present && s.service.inflight.None? && !Active(s.loop) && s.service.leases == [];
      left == if free && req != "" then [Lease(id, req)] else s.service.leases
    case _ => left == s.service.leases
  }

  lemma NextLeases(s: State, e: Event)
    requires |s.service.leases| <= 1
    ensures LeasesAfter(s, e, Next(s, e).service.leases)
  {
    match e
    case ServiceRun(req) => OneLeaseTaken(s.service.leases, req, "");
    case Release(id) => OneLeaseTaken(s.service.leases, "", id);
    case _ =>
  }

  lemma LeasesGoTo(events: seq<Event>, e: Event)
    ensures LeasesAfter(Run(Initial, events), e, Next(Run(Initial, events), e).service.leases)
  {
    AtMostOneLease(events);
    NextLeases(Run(Initial, events), e);
  }

  /** Call `i` keeps the admission it leaked. */
  predicate LeakedAt(s: State, i: nat) {
    Serviced(s) && s.service.inflight == Some(i)
    && i < |s.calls| && s.calls[i].viaService && s.calls[i].pc == Leaked
  }

  lemma NextLeakedAt(s: State, e: Event, i: nat)
    requires LeakedAt(s, i)
    ensures LeakedAt(Next(s, e), i)
  {
    NextServiced(s, e);
    if e.Step? && e.i < |s.calls| {
      StepAdmits(s.calls[e.i], e.i, s.loop, s.service, e.choice);
    }
  }

  lemma {:induction false} RunLeakedAt(s: State, i: nat, events: seq<Event>)
    requires LeakedAt(s, i)
    ensures LeakedAt(Run(s, events), i)
  {
    if events != [] {
      RunLeakedAt(s, i, events[..|events| - 1]);
      NextLeakedAt(Run(s, events[..|events| - 1]), events[|events| - 1], i);
    }
  }

  lemma LeakShutsOut(s: State, i: nat)
    requires LeakedAt(s, i)
    ensures forall req :: Next(s, ServiceRun(req)) == s
    ensures forall id, req :: Next(s, TryReserve(id, req)) == s
  {
  }

  /** A call cancelled during its first notification stays admitted: from then on no run is let in
      and no lease is granted, whatever happens. */
  lemma LeakedAdmissionStays(before: seq<Event>, i: nat, events: seq<Event>)
    requires var s := Run(Initial, before); i < |s.calls| && s.calls[i].viaService && s.calls[i].pc == Leaked
    ensures var s := Run(Run(Initial, before), events);
      && LeakedAt(s, i)
      && (forall req :: Next(s, ServiceRun(req)) == s)
      && (forall id, req :: Next(s, TryReserve(id, req)) == s)
  {
    RunServiced(before);
    assert Admitted(Run(Initial, before).calls[i]);
    RunLeakedAt(Run(Initial, before), i, events);
    LeakShutsOut(Run(Run(Initial, before), events), i);
  }
}
