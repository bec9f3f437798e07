/** The Turn state machine: build, run with bounded error recovery, finalize.

    The mutable `Turn` is proved against the value semantics `Advance` and `Finish`. Whatever the
    builder, the agent and the recovery hook do: with every decision's `max_attempts` at most `m`
    the run phase is entered at most `m + 1` times (`RunsAreBounded`) and the machine ends
    (`DriveEnds`); the retry count is the number of accepted progress tokens and the retry events
    are numbered without gaps (`RetriesAreCounted`); the one end event comes after everything else
    (`EndIsLast`) and says what the caller is told (`OutcomeAgrees`). The runner of this repository
    never forgets the task of its first run and refuses a second ordinary run in it, so a retried
    Turn of ordinary messages never completes (`RetriedTurnNeverCompletes`, `RetriedTurnFails`). */
module TurnDriver {
  import opened Prelude
  import React

  datatype Phase = Building | RunningPhase | Finalizing | Completed | Cancelled | Failed

  datatype Outcome = OutcomePaused | OutcomeCancelled | OutcomeError | OutcomeCompleted

  datatype PublicStatus = PublicCompleted | PublicCancelled | PublicFailed

  /** An append to the session log, as attempted. */
  datatype Event = RunEvent | Retry(attempt: nat) | FinalAssistant(id: string) | End(outcome: Outcome)

  /** The agent's `run_state` as the driver reads it. */
  datatype RunEnd = RunEnd(status: React.Status, reason: Option<React.Reason>)

  datatype Machine = Machine(
    phase: Phase,
    agent: Option<RunEnd>,
    retryCount: nat,
    retryTokens: set<string>,
    paused: bool,
    runs: nat,
    log: seq<Event>)

  // ---------------------------------------------------------------- the surroundings

  /** The agent may exist even when building fails. */
  datatype Build = Built(initial: RunEnd) | BuildRaised(made: Option<RunEnd>) | BuildCancelled(made: Option<RunEnd>)

  datatype Ending = Returned | RunRaised | RunCancelled

  /** One run of the agent: how many events it appended, how it ended, what it left behind. */
  datatype Attempt = Attempt(events: nat, ending: Ending, left: RunEnd)

  datatype Append = Appended | AppendRaised | AppendCancelled | RefreshCancelled

  datatype Hook =
    | NoRetry
    | HookRaised
    | HookCancelled
    | RetryRequest(token: string, maxAttempts: int, append: Append)

  /** What the surroundings answer during one transition. */
  datatype Inputs = Inputs(build: Build, attempt: Attempt, cancelling: bool, hook: Hook, again: Hook)

  // ---------------------------------------------------------------- value semantics

  datatype Recovery = Accepted | Declined | Broke | Stopped

  function Recover(t: Machine, cancelling: bool, hook: Hook): (Recovery, Machine) {
    match hook
    case HookRaised => (Declined, t)
    case HookCancelled => (Stopped, t)
    case NoRetry => (Declined, t)
    case RetryRequest(token, maxAttempts, append) =>
      if cancelling || token in t.retryTokens || t.retryCount >= maxAttempts then (Declined, t)
      else
        var counted := t.(retryTokens := t.retryTokens + {token}, retryCount := t.retryCount + 1);
        var logged := counted.(log := counted.log + [Retry(counted.retryCount)]);
        match append
        case Appended => (Accepted, logged)
        case AppendRaised => (Broke, logged)
        case AppendCancelled => (Stopped, logged)
        case RefreshCancelled => (Stopped, counted)
  }

  /** An exception left the run phase: recover once more or fail. */
  function AfterException(t: Machine, cancelling: bool, hook: Hook): Machine {
    var (recovery, t') := Recover(t, cancelling, hook);
    match recovery
    case Accepted => t'.(phase := RunningPhase)
    case Declined => t'.(phase := Failed)
    case Broke => t'.(phase := Failed)
    case Stopped => t'.(phase := Cancelled)
  }

  function AfterErrorEnd(t: Machine, inputs: Inputs): Machine {
    var (recovery, t') := Recover(t, inputs.cancelling, inputs.hook);
    match recovery
    case Accepted => t'.(phase := RunningPhase)
    case Declined => t'.(phase := Finalizing)
    case Broke => AfterException(t', inputs.cancelling, inputs.again)
    case Stopped => t'.(phase := Cancelled)
  }

  function RunEvents(n: nat): seq<Event> {
    seq(n, _ => RunEvent)
  }

  function EndedInError(left: RunEnd): bool {
    left.reason == None || left.reason == Some(React.ReasonError)
  }

  /** The agent ran: its events are in the log and its state is what it left behind. */
  function JustRan(t: Machine, a: Attempt): Machine {
    t.(runs := t.runs + 1, agent := Some(a.left), log := t.log + RunEvents(a.events))
  }

  function RunPhase(t: Machine, inputs: Inputs): Machine {
    var a := inputs.attempt;
    var ran := JustRan(t, a);
    match a.ending
    case RunCancelled => ran.(phase := Cancelled)
    case RunRaised => AfterException(ran, inputs.cancelling, inputs.hook)
    case Returned =>
      if a.left.status == React.Paused then ran.(paused := true, phase := Finalizing)
      else if EndedInError(a.left) then AfterErrorEnd(ran, inputs)
      else ran.(phase := Finalizing)
  }

  function BuildPhase(t: Machine, build: Build): Machine {
    match build
    case Built(initial) => t.(agent := Some(initial), phase := RunningPhase)
    case BuildRaised(made) => t.(agent := made, phase := Failed)
    case BuildCancelled(made) => t.(agent := made, phase := Cancelled)
  }

  function Advance(t: Machine, inputs: Inputs): Machine {
    match t.phase
    case Building => BuildPhase(t, inputs.build)
    case RunningPhase => RunPhase(t, inputs)
    case Finalizing => t.(phase := Completed)
    case _ => t
  }

  function Advances(t: Machine, inputs: seq<Inputs>): Machine {
    if inputs == [] then t
    else Advance(Advances(t, inputs[..|inputs| - 1]), inputs[|inputs| - 1])
  }

  const NewTurn := Machine(Building, None, 0, {}, false, 0, [])

  predicate Terminal(phase: Phase) {
    phase == Completed || phase == Cancelled || phase == Failed
  }

  function OutcomeOf(t: Machine): Outcome {
    if t.paused then OutcomePaused
    else if t.phase == Cancelled || (t.agent.Some? && t.agent.value.status == React.Cancelled) then OutcomeCancelled
    else if t.phase == Failed
         || (t.agent.Some? && t.agent.value.reason == Some(React.ReasonError)
             && t.agent.value.status != React.Completed)
      then OutcomeError
    else OutcomeCompleted
  }

  /** A final message the agent reports, and whether appending it raises. */
  datatype Snapshot = Snapshot(id: string, raises: bool)

  /** The snapshots whose append is attempted: each named message once, up to the first that raises. */
  function FinalEvents(finals: seq<Snapshot>, emitted: set<string>): seq<Event> {
    if finals == [] then []
    else if finals[0].id != "" && finals[0].id in emitted then FinalEvents(finals[1..], emitted)
    else if finals[0].raises then [FinalAssistant(finals[0].id)]
    else [FinalAssistant(finals[0].id)] + FinalEvents(finals[1..], Noted(emitted, finals[0].id))
  }

  function Noted(emitted: set<string>, id: string): set<string> {
    emitted + (if id == "" then {} else {id})
  }

  /** Closing a Turn: the final assistant snapshots that can be appended, then the end event. */
  function Finish(t: Machine, finals: seq<Snapshot>): Machine {
    t.(log := t.log + (if t.agent.None? then [] else FinalEvents(finals, {})) + [End(OutcomeOf(t))])
  }

  function StatusFor(t: Machine): PublicStatus
    requires Terminal(t.phase)
  {
    match OutcomeOf(t)
    case OutcomeError => PublicFailed
    case OutcomeCancelled => PublicCancelled
    case _ =>
      match t.phase
      case Completed => PublicCompleted
      case Cancelled => PublicCancelled
      case _ => PublicFailed
  }

  // ---------------------------------------------------------------- what every transition keeps

  function RetryEvents(log: seq<Event>): seq<nat> {
    if log == [] then []
    else RetryEvents(log[..|log| - 1]) + (if log[|log| - 1].Retry? then [log[|log| - 1].attempt] else [])
  }

  predicate NoEnd(log: seq<Event>) {
    forall k :: 0 <= k < |log| ==> !log[k].End?
  }

  /** 1, 2, …, n. */
  function Numbered(n: nat): seq<nat> {
    seq(n, k => k + 1)
  }

  predicate Counted(t: Machine) {
    && t.retryCount == |t.retryTokens|
    && t.runs <= t.retryCount + (if t.phase == RunningPhase then 0 else 1)
    && (t.phase == Building ==> t.runs == 0)
    && (t.paused ==> t.phase == Finalizing || t.phase == Completed)
    && (t.phase == RunningPhase || t.phase == Finalizing || t.phase == Completed ==> t.agent.Some?)
  }

  predicate Logged(t: Machine) {
    && NoEnd(t.log)
    && (RetryEvents(t.log) == Numbered(t.retryCount)
        || (t.phase == Cancelled && t.retryCount > 0 && RetryEvents(t.log) == Numbered(t.retryCount - 1)))
  }

  lemma RecoverCounts(t: Machine, cancelling: bool, hook: Hook)
    requires t.retryCount == |t.retryTokens|
    ensures var (recovery, t') := Recover(t, cancelling, hook);
      && t'.retryCount == |t'.retryTokens|
      && t.retryCount <= t'.retryCount <= t.retryCount + 1
      && (recovery == Accepted ==> t'.retryCount == t.retryCount + 1)
      && t' == t.(retryCount := t'.retryCount, retryTokens := t'.retryTokens, log := t'.log)
  {
  }

  /** Between the agent's return and the next phase. */
  predicate Ran(t: Machine) {
    t.retryCount == |t.retryTokens| && t.runs <= t.retryCount + 1 && !t.paused && t.agent.Some?
  }

  lemma ExceptionCounts(t: Machine, cancelling: bool, hook: Hook)
    requires Ran(t)
    ensures Counted(AfterException(t, cancelling, hook)) && AfterException(t, cancelling, hook).phase != Building
  {
    RecoverCounts(t, cancelling, hook);
  }

  lemma ErrorEndCounts(t: Machine, inputs: Inputs)
    requires Ran(t)
    ensures Counted(AfterErrorEnd(t, inputs)) && AfterErrorEnd(t, inputs).phase != Building
  {
    RecoverCounts(t, inputs.cancelling, inputs.hook);
    var (recovery, t') := Recover(t, inputs.cancelling, inputs.hook);
    ExceptionCounts(t', inputs.cancelling, inputs.again);
  }

  lemma RunCounts(t: Machine, inputs: Inputs)
    requires Counted(t) && t.phase == RunningPhase
    ensures Counted(RunPhase(t, inputs)) && RunPhase(t, inputs).phase != Building
  {
    var ran := JustRan(t, inputs.attempt);
    match inputs.attempt.ending
    case RunCancelled =>
    case RunRaised => ExceptionCounts(ran, inputs.cancelling, inputs.hook);
    case Returned => ErrorEndCounts(ran, inputs);
  }

  lemma AdvanceCounts(t: Machine, inputs: Inputs)
    requires Counted(t)
    ensures Counted(Advance(t, inputs))
  {
    if t.phase == RunningPhase {
      RunCounts(t, inputs);
    }
  }

  /** Exactly the recoveries that run the agent again. */
  predicate Grants(t: Machine, cancelling: bool, hook: Hook) {
    hook.RetryRequest? && !cancelling && hook.token !in t.retryTokens && t.retryCount < hook.maxAttempts
  }

  /** The agent runs again exactly after an error or an exception, when a hook grants a new token and
      its event is logged, in the second recovery if logging broke the first; never once cancelling. */
  lemma RunsAgainIff(t: Machine, inputs: Inputs)
    requires t.phase == RunningPhase
    ensures var a := inputs.attempt;
      var first := Grants(t, inputs.cancelling, inputs.hook);
      Advance(t, inputs).phase == RunningPhase <==>
        && (a.ending == RunRaised || (a.ending == Returned && a.left.status != React.Paused && EndedInError(a.left)))
        && ((first && inputs.hook.append == Appended)
            || (first && inputs.hook.append == AppendRaised && a.ending == Returned
                && inputs.again.RetryRequest? && inputs.again.append == Appended
                && inputs.again.token !in t.retryTokens + {inputs.hook.token}
                && t.retryCount + 1 < inputs.again.maxAttempts))
  {
    var ran := JustRan(t, inputs.attempt);
    if Recover(ran, inputs.cancelling, inputs.hook).0 == Broke {
      var counted := Recover(ran, inputs.cancelling, inputs.hook).1;
      assert counted.retryTokens == t.retryTokens + {inputs.hook.token};
    }
  }

  /** What a recovery comes to: the first recovery that its hook decides. */
  predicate Cancels(t: Machine, cancelling: bool, hook: Hook) {
    || hook.HookCancelled?
    || (Grants(t, cancelling, hook) && (hook.append == AppendCancelled || hook.append == RefreshCancelled))
  }

  predicate Breaks(t: Machine, cancelling: bool, hook: Hook) {
    Grants(t, cancelling, hook) && hook.append == AppendRaised
  }

  predicate Retries(t: Machine, cancelling: bool, hook: Hook) {
    Grants(t, cancelling, hook) && hook.append == Appended
  }

  /** Where a run that was cancelled or raised leads. */
  lemma ExceptionalRunLeadsTo(t: Machine, inputs: Inputs)
    requires t.phase == RunningPhase && inputs.attempt.ending != Returned
    ensures Advance(t, inputs).phase ==
      if inputs.attempt.ending == RunCancelled || Cancels(t, inputs.cancelling, inputs.hook) then Cancelled
      else if Retries(t, inputs.cancelling, inputs.hook) then RunningPhase
      else Failed
    ensures Advance(t, inputs).paused == t.paused
  {
  }

  /** Where a run that returned leads: a pause or an end that is no error is finalized; an error is
      retried, cancelled or finalized as its hook says, and when logging the retry breaks, a second
      recovery decides. */
  lemma ReturnedRunLeadsTo(t: Machine, inputs: Inputs)
    requires t.phase == RunningPhase && inputs.attempt.ending == Returned
    ensures var left := inputs.attempt.left;
      var isError := left.reason == None || left.reason == Some(React.ReasonError);
      var counted := t.(retryCount := t.retryCount + 1,
                        retryTokens := t.retryTokens + (if inputs.hook.RetryRequest? then {inputs.hook.token} else {}));
      Advance(t, inputs).phase ==
        if left.status == React.Paused || !isError then Finalizing
        else if Cancels(t, inputs.cancelling, inputs.hook) then Cancelled
        else if Retries(t, inputs.cancelling, inputs.hook) then RunningPhase
        else if !Breaks(t, inputs.cancelling, inputs.hook) then Finalizing
        else if Cancels(counted, inputs.cancelling, inputs.again) then Cancelled
        else if Retries(counted, inputs.cancelling, inputs.again) then RunningPhase
        else Failed
    ensures Advance(t, inputs).paused <==> t.paused || inputs.attempt.left.status == React.Paused
  {
  }

  /** Building leads to running, and otherwise fails or is cancelled; finalizing completes; a final phase
      stays. */
  lemma OtherPhasesLeadTo(t: Machine, inputs: Inputs)
    requires t.phase != RunningPhase
    ensures Advance(t, inputs).phase ==
      match t.phase
      case Building => (match inputs.build
                        case Built(_) => RunningPhase
                        case BuildRaised(_) => Failed
                        case BuildCancelled(_) => Cancelled)
      case Finalizing => Completed
      case phase => phase
    ensures Advance(t, inputs).log == t.log && Advance(t, inputs).retryCount == t.retryCount
  {
  }

  // ---------------------------------------------------------------- the retry budget

  predicate HookWithin(hook: Hook, m: nat) {
    hook.RetryRequest? ==> hook.maxAttempts <= m
  }

  predicate Within(inputs: Inputs, m: nat) {
    HookWithin(inputs.hook, m) && HookWithin(inputs.again, m)
  }

  predicate AllWithin(inputs: seq<Inputs>, m: nat) {
    inputs == [] || (AllWithin(inputs[..|inputs| - 1], m) && Within(inputs[|inputs| - 1], m))
  }

  lemma RecoverWithin(t: Machine, cancelling: bool, hook: Hook, m: nat)
    requires t.retryCount <= m && HookWithin(hook, m)
    ensures Recover(t, cancelling, hook).1.retryCount <= m
  {
  }

  lemma AdvanceWithin(t: Machine, inputs: Inputs, m: nat)
    requires t.retryCount <= m && Within(inputs, m)
    ensures Advance(t, inputs).retryCount <= m
  {
    if t.phase == RunningPhase {
      var ran := JustRan(t, inputs.attempt);
      RecoverWithin(ran, inputs.cancelling, inputs.hook, m);
      RecoverWithin(Recover(ran, inputs.cancelling, inputs.hook).1, inputs.cancelling, inputs.again, m);
    }
  }

  lemma {:induction false} AllWithinIff(inputs: seq<Inputs>, m: nat)
    ensures AllWithin(inputs, m) <==>
              forall k :: 0 <= k < |inputs| ==>
                && (inputs[k].hook.RetryRequest? ==> inputs[k].hook.maxAttempts <= m)
                && (inputs[k].again.RetryRequest? ==> inputs[k].again.maxAttempts <= m)
  {
    if inputs != [] {
      var front := inputs[..|inputs| - 1];
      AllWithinIff(front, m);
      assert forall k :: 0 <= k < |front| ==> front[k] == inputs[k];
    }
  }

  /** Every reachable machine counts its retries by distinct progress tokens and enters the run phase
      at most once more than it retried, hence at most `m + 1` times. */
  lemma {:induction false} RunsAreBounded(inputs: seq<Inputs>, m: nat)
    ensures Counted(Advances(NewTurn, inputs))
    ensures AllWithin(inputs, m) ==>
              var t := Advances(NewTurn, inputs); t.retryCount <= m && t.runs <= m + 1
  {
    if inputs != [] {
      var front, last := inputs[..|inputs| - 1], inputs[|inputs| - 1];
      RunsAreBounded(front, m);
      AdvanceCounts(Advances(NewTurn, front), last);
      if AllWithin(inputs, m) {
        AdvanceWithin(Advances(NewTurn, front), last, m);
      }
    }
  }

  /** Transitions still possible: retries left, then the phases to come. */
  function Left(t: Machine, m: nat): int {
    match t.phase
    case Building => m + 4
    case RunningPhase => m - t.retryCount + 3
    case Finalizing => 1
    case _ => 0
  }

  lemma AdvanceUsesUp(t: Machine, inputs: Inputs, m: nat)
    requires Counted(t) && t.retryCount <= m && Within(inputs, m) && !Terminal(t.phase)
    ensures 0 <= Left(Advance(t, inputs), m) < Left(t, m)
  {
    AdvanceWithin(t, inputs, m);
    if t.phase == RunningPhase {
      var ran := JustRan(t, inputs.attempt);
      RecoverCounts(ran, inputs.cancelling, inputs.hook);
      RecoverCounts(Recover(ran, inputs.cancelling, inputs.hook).1, inputs.cancelling, inputs.again);
    }
  }

  /** After `m + 4` transitions the machine is in a final phase. */
  lemma {:induction false} DriveEnds(inputs: seq<Inputs>, m: nat)
    requires AllWithin(inputs, m)
    ensures var t := Advances(NewTurn, inputs);
      Terminal(t.phase) || (0 <= Left(t, m) <= m + 4 - |inputs|)
    ensures |inputs| >= m + 4 ==> Terminal(Advances(NewTurn, inputs).phase)
  {
    if inputs != [] {
      var front, last := inputs[..|inputs| - 1], inputs[|inputs| - 1];
      DriveEnds(front, m);
      RunsAreBounded(front, m);
      var t := Advances(NewTurn, front);
      if !Terminal(t.phase) {
        AdvanceUsesUp(t, last, m);
      }
    }
  }

  // ---------------------------------------------------------------- the log

  lemma {:induction false} RetryEventsConcat(a: seq<Event>, b: seq<Event>)
    ensures RetryEvents(a + b) == RetryEvents(a) + RetryEvents(b)
  {
    if b == [] {
      assert a + b == a;
    } else {
      var front := b[..|b| - 1];
      assert (a + b)[..|a + b| - 1] == a + front;
      RetryEventsConcat(a, front);
    }
  }

  lemma {:induction false} NoRetryEvents(log: seq<Event>)
    requires forall k :: 0 <= k < |log| ==> !log[k].Retry?
    ensures RetryEvents(log) == []
  {
    if log != [] {
      NoRetryEvents(log[..|log| - 1]);
    }
  }

  lemma RetryEventsAppend(log: seq<Event>, e: Event)
    ensures RetryEvents(log + [e]) == RetryEvents(log) + (if e.Retry? then [e.attempt] else [])
  {
    assert (log + [e])[..|log|] == log;
  }

  lemma NoEndAppend(log: seq<Event>, more: seq<Event>)
    requires NoEnd(log) && NoEnd(more)
    ensures NoEnd(log + more)
  {
  }

  /** All retries so far are in the log. */
  predicate FullyLogged(t: Machine) {
    NoEnd(t.log) && RetryEvents(t.log) == Numbered(t.retryCount)
  }

  lemma RecoverLogs(t: Machine, cancelling: bool, hook: Hook)
    requires FullyLogged(t)
    ensures var (recovery, t') := Recover(t, cancelling, hook);
      && (recovery != Stopped ==> FullyLogged(t'))
      && Logged(t'.(phase := Cancelled))
  {
    RetryLogged(t.log, t.retryCount);
  }

  lemma RetryLogged(log: seq<Event>, n: nat)
    requires NoEnd(log) && RetryEvents(log) == Numbered(n)
    ensures NoEnd(log + [Retry(n + 1)]) && RetryEvents(log + [Retry(n + 1)]) == Numbered(n + 1)
  {
    RetryEventsAppend(log, Retry(n + 1));
    NumberedNext(n);
    NoEndAppend(log, [Retry(n + 1)]);
  }

  lemma NumberedNext(n: nat)
    ensures Numbered(n + 1) == Numbered(n) + [n + 1]
  {
  }

  lemma ExceptionLogs(t: Machine, cancelling: bool, hook: Hook)
    requires FullyLogged(t)
    ensures var t' := AfterException(t, cancelling, hook);
      Logged(t') && (t'.phase == RunningPhase ==> FullyLogged(t'))
  {
    RecoverLogs(t, cancelling, hook);
  }

  lemma ErrorEndLogs(t: Machine, inputs: Inputs)
    requires FullyLogged(t)
    ensures var t' := AfterErrorEnd(t, inputs);
      Logged(t') && (t'.phase == RunningPhase ==> FullyLogged(t'))
  {
    RecoverLogs(t, inputs.cancelling, inputs.hook);
    var (recovery, t') := Recover(t, inputs.cancelling, inputs.hook);
    if recovery == Broke {
      ExceptionLogs(t', inputs.cancelling, inputs.again);
    }
  }

  lemma RunLogs(t: Machine, inputs: Inputs)
    requires FullyLogged(t)
    ensures Logged(RunPhase(t, inputs))
    ensures RunPhase(t, inputs).phase == RunningPhase ==> FullyLogged(RunPhase(t, inputs))
  {
    var ran := JustRan(t, inputs.attempt);
    JustRanLogs(t, inputs.attempt);
    match inputs.attempt.ending
    case RunCancelled =>
    case RunRaised => ExceptionLogs(ran, inputs.cancelling, inputs.hook);
    case Returned => ErrorEndLogs(ran, inputs);
  }

  lemma JustRanLogs(t: Machine, a: Attempt)
    requires FullyLogged(t)
    ensures FullyLogged(JustRan(t, a))
  {
    NoEndAppend(t.log, RunEvents(a.events));
    RetryEventsConcat(t.log, RunEvents(a.events));
    NoRetryEvents(RunEvents(a.events));
    assert RetryEvents(t.log) + [] == RetryEvents(t.log);
  }

  /** The retry events of a driven Turn are numbered 1, 2, … up to the retry count; only a
      cancellation during the last recovery can leave its event out. */
  lemma {:induction false} RetriesAreCounted(inputs: seq<Inputs>)
    ensures var t := Advances(NewTurn, inputs);
      && Logged(t)
      && (t.phase != Cancelled ==> FullyLogged(t))
  {
    if inputs == [] {
      assert Numbered(0) == [];
    } else {
      var front, last := inputs[..|inputs| - 1], inputs[|inputs| - 1];
      RetriesAreCounted(front);
      var t := Advances(NewTurn, front);
      if t.phase == RunningPhase {
        RunLogs(t, last);
      }
    }
  }

  predicate Reports(finals: seq<Snapshot>, id: string) {
    finals != [] && (finals[0].id == id || Reports(finals[1..], id))
  }

  predicate NoneRaises(finals: seq<Snapshot>) {
    finals == [] || (!finals[0].raises && NoneRaises(finals[1..]))
  }

  /** Only reported messages are appended, and all of them if no append raises. */
  lemma {:induction false} FinalEventsAreSnapshots(finals: seq<Snapshot>, emitted: set<string>, id: string)
    ensures NoEnd(FinalEvents(finals, emitted))
    ensures id != "" && FinalAssistant(id) in FinalEvents(finals, emitted) ==> Reports(finals, id) && id !in emitted
    ensures id != "" && NoneRaises(finals) && Reports(finals, id) && id !in emitted ==>
              FinalAssistant(id) in FinalEvents(finals, emitted)
  {
    if finals == [] {
    } else if finals[0].id != "" && finals[0].id in emitted {
      FinalEventsAreSnapshots(finals[1..], emitted, id);
    } else {
      var after := Noted(emitted, finals[0].id);
      FinalEventsAreSnapshots(finals[1..], after, id);
      NoEndAppend([FinalAssistant(finals[0].id)], FinalEvents(finals[1..], after));
    }
  }

  lemma {:induction false} NotedStays(finals: seq<Snapshot>, emitted: set<string>, k: nat)
    requires k < |FinalEvents(finals, emitted)|
    ensures FinalEvents(finals, emitted)[k].FinalAssistant?
    ensures FinalEvents(finals, emitted)[k].id !in emitted || FinalEvents(finals, emitted)[k].id == ""
  {
    if finals[0].id != "" && finals[0].id in emitted {
      NotedStays(finals[1..], emitted, k);
    } else if k > 0 {
      NotedStays(finals[1..], Noted(emitted, finals[0].id), k - 1);
    }
  }

  /** No named message is appended twice. */
  lemma {:induction false} SnapshotsOnce(finals: seq<Snapshot>, emitted: set<string>, p: nat, q: nat)
    requires p < q < |FinalEvents(finals, emitted)|
    ensures FinalEvents(finals, emitted)[p].FinalAssistant? && FinalEvents(finals, emitted)[q].FinalAssistant?
    ensures FinalEvents(finals, emitted)[p].id != FinalEvents(finals, emitted)[q].id
            || FinalEvents(finals, emitted)[p].id == ""
  {
    NotedStays(finals, emitted, p);
    NotedStays(finals, emitted, q);
    if finals[0].id != "" && finals[0].id in emitted {
      SnapshotsOnce(finals[1..], emitted, p, q);
    } else {
      var after := Noted(emitted, finals[0].id);
      if p == 0 {
        NotedStays(finals[1..], after, q - 1);
      } else {
        SnapshotsOnce(finals[1..], after, p - 1, q - 1);
      }
    }
  }

  /** After the first append that raises there is no other. */
  lemma {:induction false} RaisingEnds(front: seq<Snapshot>, last: Snapshot, emitted: set<string>, more: seq<Snapshot>)
    requires NoneRaises(front) && last.raises && (last.id == "" || (last.id !in emitted && !Reports(front, last.id)))
    ensures FinalEvents(front + [last] + more, emitted) == FinalEvents(front, emitted) + [FinalAssistant(last.id)]
  {
    var finals := front + [last] + more;
    if front == [] {
      assert finals[0] == last;
    } else {
      assert finals[0] == front[0] && finals[1..] == front[1..] + [last] + more;
      var skipped := front[0].id != "" && front[0].id in emitted;
      RaisingEnds(front[1..], last, if skipped then emitted else Noted(emitted, front[0].id), more);
    }
  }

  /** Every driven Turn has exactly one end event, and it is the last append. */
  lemma EndIsLast(inputs: seq<Inputs>, finals: seq<Snapshot>)
    requires Terminal(Advances(NewTurn, inputs).phase)
    ensures var t := Advances(NewTurn, inputs);
      var log := Finish(t, finals).log;
      && log[|log| - 1] == End(OutcomeOf(t))
      && NoEnd(log[..|log| - 1])
      && t.log <= log
  {
    var t := Advances(NewTurn, inputs);
    RetriesAreCounted(inputs);
    FinalEventsAreSnapshots(finals, {}, "");
    var snapshots := if t.agent.None? then [] else FinalEvents(finals, {});
    NoEndAppend(t.log, snapshots);
    var log := Finish(t, finals).log;
    assert log[..|log| - 1] == t.log + snapshots;
  }

  // ---------------------------------------------------------------- the outcome

  /** The end event and the caller's status tell the same story, for every final phase: failed is
      an error, cancelled is cancelled, completed is completed or paused. */
  lemma OutcomeAgrees(inputs: seq<Inputs>)
    requires Terminal(Advances(NewTurn, inputs).phase)
    ensures var t := Advances(NewTurn, inputs);
      && (StatusFor(t) == PublicFailed <==> OutcomeOf(t) == OutcomeError)
      && (StatusFor(t) == PublicCancelled <==> OutcomeOf(t) == OutcomeCancelled)
      && (OutcomeOf(t) == OutcomePaused <==> t.paused)
      && (StatusFor(t) == PublicCompleted <==> OutcomeOf(t) == OutcomeCompleted || OutcomeOf(t) == OutcomePaused)
      && (StatusFor(t) == PublicCompleted ==> t.phase == Completed)
  {
    RunsAreBounded(inputs, 0);
  }

  /** What the end event says: paused, or cancelled, or an error, or completed, in this order. */
  lemma OutcomeIs(t: Machine)
    requires Terminal(t.phase)
    ensures var stopped := t.phase == Cancelled || (t.agent.Some? && t.agent.value.status == React.Cancelled);
      var erred := t.phase == Failed
                   || (t.agent.Some? && t.agent.value.reason == Some(React.ReasonError)
                       && t.agent.value.status != React.Completed);
      && (OutcomeOf(t) == OutcomePaused <==> t.paused)
      && (OutcomeOf(t) == OutcomeCancelled <==> !t.paused && stopped)
      && (OutcomeOf(t) == OutcomeError <==> !t.paused && !stopped && erred)
      && (OutcomeOf(t) == OutcomeCompleted <==> !t.paused && !stopped && !erred)
      && (StatusFor(t) == PublicCancelled <==> t.phase == Cancelled || (!t.paused && stopped))
      && (StatusFor(t) == PublicCompleted <==> t.phase == Completed && (t.paused || (!stopped && !erred)))
  {
  }

  // ---------------------------------------------------------------- the runner of this repository

  /** The runner of the Turn's agent: the task of its last run, and whether a tool call of its context
      awaits permission. */
  datatype Runner = Runner(runTask: Option<nat>, asking: bool)

  /** What the surroundings answer in one transition: `asking` is what a run leaves behind, `done` are
      the tasks that are over by then. */
  datatype Answer = Answer(inputs: Inputs, asking: bool, done: set<nat>)

  datatype Driven = Driven(machine: Machine, runner: Runner)

  /** The agent is made by the Turn itself, with an empty context. */
  const NewDriven := Driven(NewTurn, Runner(None, false))

  /** The checks on entry of an ordinary run. */
  predicate Refuses(runner: Runner, done: set<nat>) {
    runner.asking || (runner.runTask.Some? && runner.runTask.value !in done)
  }

  /** A refused run raises before it has touched anything. */
  function Refused(t: Machine, inputs: Inputs): Inputs {
    if t.agent.None? then inputs else inputs.(attempt := Attempt(0, RunRaised, t.agent.value))
  }

  /** What the driver meets in a transition. */
  function Faced(d: Driven, answer: Answer): Inputs {
    if d.machine.phase == RunningPhase && Refuses(d.runner, answer.done) then Refused(d.machine, answer.inputs)
    else answer.inputs
  }

  /** One transition of a Turn of ordinary messages that is driven by `task`. */
  function DrivenOnce(d: Driven, task: nat, answer: Answer): Driven {
    var runner :=
      if d.machine.phase == RunningPhase && !Refuses(d.runner, answer.done) then Runner(Some(task), answer.asking)
      else d.runner;
    Driven(Advance(d.machine, Faced(d, answer)), runner)
  }

  function DrivenBy(task: nat, answers: seq<Answer>): Driven {
    if answers == [] then NewDriven
    else DrivenOnce(DrivenBy(task, answers[..|answers| - 1]), task, answers[|answers| - 1])
  }

  /** All that the driver met. */
  function AllFaced(task: nat, answers: seq<Answer>): seq<Inputs> {
    if answers == [] then []
    else
      var front := answers[..|answers| - 1];
      AllFaced(task, front) + [Faced(DrivenBy(task, front), answers[|answers| - 1])]
  }

  /** The task that drives the Turn is not over while it does. */
  predicate Alive(task: nat, answers: seq<Answer>) {
    answers == [] || (Alive(task, answers[..|answers| - 1]) && task !in answers[|answers| - 1].done)
  }

  /** Every run after the first raises without touching its state. */
  predicate RefusesSecondRun(t: Machine, inputs: Inputs) {
    t.phase == RunningPhase && t.runs > 0 && t.agent.Some? ==>
      inputs.attempt == Attempt(0, RunRaised, t.agent.value)
  }

  predicate Refusing(t: Machine, inputs: seq<Inputs>) {
    inputs == []
    || (Refusing(t, inputs[..|inputs| - 1])
        && RefusesSecondRun(Advances(t, inputs[..|inputs| - 1]), inputs[|inputs| - 1]))
  }

  /** The runner is fresh until the agent has run; from then on it names the driving task. */
  predicate NamesTask(d: Driven, task: nat) {
    if d.machine.runs == 0 then d.runner == Runner(None, false) else d.runner.runTask == Some(task)
  }

  lemma AdvanceRuns(t: Machine, inputs: Inputs)
    ensures Advance(t, inputs).runs == t.runs + (if t.phase == RunningPhase then 1 else 0)
  {
    if t.phase == RunningPhase {
      var ran := JustRan(t, inputs.attempt);
      assert Recover(ran, inputs.cancelling, inputs.hook).1.runs == ran.runs;
    }
  }

  lemma OnceRefuses(d: Driven, task: nat, answer: Answer)
    requires NamesTask(d, task) && task !in answer.done
    ensures NamesTask(DrivenOnce(d, task, answer), task) && RefusesSecondRun(d.machine, Faced(d, answer))
  {
    AdvanceRuns(d.machine, Faced(d, answer));
  }

  /** The driver meets a runner that refuses every run after the first. */
  lemma {:induction false} RunnerRefuses(task: nat, answers: seq<Answer>)
    requires Alive(task, answers)
    ensures var d := DrivenBy(task, answers);
      d.machine == Advances(NewTurn, AllFaced(task, answers)) && NamesTask(d, task)
    ensures Refusing(NewTurn, AllFaced(task, answers))
  {
    if answers != [] {
      var front, last := answers[..|answers| - 1], answers[|answers| - 1];
      RunnerRefuses(task, front);
      OnceRefuses(DrivenBy(task, front), task, last);
      var faced := AllFaced(task, front);
      assert (faced + [Faced(DrivenBy(task, front), last)])[..|faced|] == faced;
    }
  }

  predicate LeftAfterRetry(t: Machine) {
    t.retryCount > 0 ==>
      t.runs > 0 && !t.paused && (t.phase == RunningPhase || t.phase == Failed || t.phase == Cancelled)
  }

  lemma RetryStaysOpen(t: Machine, inputs: Inputs)
    requires Counted(t) && LeftAfterRetry(t) && RefusesSecondRun(t, inputs)
    ensures LeftAfterRetry(Advance(t, inputs))
  {
    if t.phase == RunningPhase {
      var ran := JustRan(t, inputs.attempt);
      ExceptionStaysOpen(ran, inputs.cancelling, inputs.hook);
      if t.runs == 0 {
        ErrorEndStaysOpen(ran, inputs);
      }
    }
  }

  lemma ExceptionStaysOpen(ran: Machine, cancelling: bool, hook: Hook)
    requires ran.runs > 0 && !ran.paused
    ensures LeftAfterRetry(AfterException(ran, cancelling, hook))
  {
  }

  lemma ErrorEndStaysOpen(ran: Machine, inputs: Inputs)
    requires ran.runs > 0 && !ran.paused && ran.retryCount == 0
    ensures LeftAfterRetry(AfterErrorEnd(ran, inputs))
  {
    var (recovery, t) := Recover(ran, inputs.cancelling, inputs.hook);
    if recovery == Broke {
      ExceptionStaysOpen(t, inputs.cancelling, inputs.again);
    }
  }

  lemma {:induction false} RefusedRetryStaysOpen(inputs: seq<Inputs>)
    requires Refusing(NewTurn, inputs)
    ensures LeftAfterRetry(Advances(NewTurn, inputs))
  {
    if inputs != [] {
      var front, last := inputs[..|inputs| - 1], inputs[|inputs| - 1];
      RefusedRetryStaysOpen(front);
      RunsAreBounded(front, 0);
      RetryStaysOpen(Advances(NewTurn, front), last);
    }
  }

  /** A Turn of ordinary messages that was retried ends failed or cancelled, never completed or paused:
      the runner refuses the run that the retry asks for. */
  lemma RetriedTurnNeverCompletes(task: nat, answers: seq<Answer>)
    requires Alive(task, answers)
    ensures var t := DrivenBy(task, answers).machine;
      && LeftAfterRetry(t)
      && (Terminal(t.phase) && t.retryCount > 0 ==> OutcomeOf(t) == OutcomeError || OutcomeOf(t) == OutcomeCancelled)
  {
    RunnerRefuses(task, answers);
    RefusedRetryStaysOpen(AllFaced(task, answers));
  }

  /** A Turn that is retried: its first run ends in an error, the hook grants one retry, and whatever
      the second run would have done, it is refused and the Turn fails. */
  lemma RetriedTurnFails(task: nat, left: RunEnd, would: Attempt) returns (answers: seq<Answer>)
    requires left == RunEnd(React.Errored, Some(React.ReasonError))
    ensures Alive(task, answers)
    ensures var t := DrivenBy(task, answers).machine;
      t.phase == Failed && t.retryCount == 1 && OutcomeOf(t) == OutcomeError
  {
    var build := Inputs(Built(left), would, false, NoRetry, NoRetry);
    var erring := build.(attempt := Attempt(0, Returned, left), hook := RetryRequest("token", 1, Appended));
    var a, b := Answer(build, false, {}), Answer(erring, false, {});
    var d1 := DrivenOnce(NewDriven, task, a);
    var d2 := DrivenOnce(d1, task, b);
    assert d1.machine.phase == RunningPhase && d1.runner == Runner(None, false);
    assert d2.machine.phase == RunningPhase && d2.machine.retryCount == 1 && d2.runner == Runner(Some(task), false);
    assert [a][..0] == [] && [a, b][..1] == [a] && [a, b, a][..2] == [a, b];
    assert Alive(task, [a]) && Alive(task, [a, b]);
    assert DrivenBy(task, [a]) == d1;
    assert DrivenBy(task, [a, b]) == d2;
    answers := [a, b, a];
  }

  ghost predicate AnswersWithin(env: nat -> Inputs, m: nat) {
    forall k: nat :: Within(env(k), m)
  }

  // ---------------------------------------------------------------- the mutable turn

  class Turn {
    var phase: Phase
    var agent: Option<RunEnd>
    var retryCount: nat
    var retryTokens: set<string>
    var paused: bool
    var log: seq<Event>
    ghost var runs: nat

    constructor ()
      ensures Value() == NewTurn
    {
      phase, agent, retryCount, retryTokens, paused, log, runs := Building, None, 0, {}, false, [], 0;
    }

    ghost function Value(): Machine
      reads this
    {
      Machine(phase, agent, retryCount, retryTokens, paused, runs, log)
    }

    method RequestErrorRecovery(cancelling: bool, hook: Hook) returns (recovery: Recovery)
      modifies this`retryTokens, this`retryCount, this`log
      ensures (recovery, Value()) == Recover(old(Value()), cancelling, hook)
    {
      if hook.HookCancelled? {
        return Stopped;
      }
      if hook.HookRaised? {
        return Declined;
      }
      if cancelling || !hook.RetryRequest? {
        return Declined;
      }
      if hook.token in retryTokens {
        return Declined;
      }
      if retryCount >= hook.maxAttempts {
        return Declined;
      }
      retryTokens := retryTokens + {hook.token};
      retryCount := retryCount + 1;
      if hook.append.RefreshCancelled? {
        return Stopped;
      }
      log := log + [Retry(retryCount)];
      match hook.append
      case Appended => return Accepted;
      case AppendRaised => return Broke;
      case _ => return Stopped;
    }

    method HandleException(cancelling: bool, hook: Hook)
      modifies this
      ensures Value() == AfterException(old(Value()), cancelling, hook)
    {
      var recovery := RequestErrorRecovery(cancelling, hook);
      match recovery
      case Accepted => phase := RunningPhase;
      case Stopped => phase := Cancelled;
      case _ => phase := Failed;
    }

    method RunAgent(inputs: Inputs)
      modifies this
      ensures Value() == RunPhase(old(Value()), inputs)
    {
      var attempt := inputs.attempt;
      NoteRun(attempt);
      if attempt.ending.RunCancelled? {
        phase := Cancelled;
      } else if attempt.ending.RunRaised? {
        HandleException(inputs.cancelling, inputs.hook);
      } else if attempt.left.status == React.Paused {
        paused := true;
        phase := Finalizing;
      } else if EndedInError(attempt.left) {
        HandleErrorEnd(inputs);
      } else {
        phase := Finalizing;
      }
    }

    method NoteRun(attempt: Attempt)
      modifies this`runs, this`agent, this`log
      ensures Value() == JustRan(old(Value()), attempt)
    {
      runs := runs + 1;
      agent := Some(attempt.left);
      log := log + RunEvents(attempt.events);
    }

    method HandleErrorEnd(inputs: Inputs)
      modifies this
      ensures Value() == AfterErrorEnd(old(Value()), inputs)
    {
      var recovery := RequestErrorRecovery(inputs.cancelling, inputs.hook);
      match recovery
      case Accepted => phase := RunningPhase;
      case Declined => phase := Finalizing;
      case Broke => HandleException(inputs.cancelling, inputs.again);
      case Stopped => phase := Cancelled;
    }

    method AdvanceOnce(inputs: Inputs)
      modifies this
      ensures Value() == Advance(old(Value()), inputs)
    {
      match phase
      case Building =>
        match inputs.build {
          case Built(initial) =>
            agent := Some(initial);
            phase := RunningPhase;
          case BuildRaised(made) =>
            agent := made;
            phase := Failed;
          case BuildCancelled(made) =>
            agent := made;
            phase := Cancelled;
        }
      case RunningPhase => RunAgent(inputs);
      case Finalizing => phase := Completed;
      case _ =>
    }

    /** Drive a new Turn, the surroundings answering `env(k)` in the k-th transition, for at most `fuel`
        transitions; `None` when it has not ended by then. With a bound `m` on all retries it ends. */
    method Drive(env: nat -> Inputs, finals: seq<Snapshot>, fuel: nat, ghost m: nat)
      returns (status: Option<PublicStatus>, ghost inputs: seq<Inputs>)
      requires Value() == NewTurn
      modifies this
      ensures inputs == seq(|inputs|, k requires 0 <= k < |inputs| => env(k))
      ensures status.None? ==> |inputs| == fuel && !Terminal(Value().phase) && Value() == Advances(NewTurn, inputs)
      ensures status.Some? ==>
                && Terminal(Advances(NewTurn, inputs).phase)
                && Value() == Finish(Advances(NewTurn, inputs), finals)
                && status == Some(StatusFor(Advances(NewTurn, inputs)))
      ensures AnswersWithin(env, m) ==> |inputs| <= m + 4 && (fuel >= m + 4 ==> status.Some?)
    {
      inputs := [];
      var step: nat := 0;
      while phase != Completed && phase != Cancelled && phase != Failed
        invariant step == |inputs| <= fuel
        invariant inputs == seq(step, k requires 0 <= k < step => env(k))
        invariant AnswersWithin(env, m) ==> AllWithin(inputs, m) && step <= m + 4
        invariant Value() == Advances(NewTurn, inputs)
        decreases fuel - step
      {
        if AnswersWithin(env, m) {
          DriveEnds(inputs, m);
        }
        if step == fuel {
          return None, inputs;
        }
        AdvanceOnce(env(step));
        assert (inputs + [env(step)])[..step] == inputs;
        inputs, step := inputs + [env(step)], step + 1;
      }
      var public := Close(finals);
      status := Some(public);
    }

    method Close(finals: seq<Snapshot>) returns (status: PublicStatus)
      requires Terminal(phase)
      modifies this`log
      ensures Value() == Finish(old(Value()), finals)
      ensures status == StatusFor(old(Value()))
    {
      var outcome := OutcomePaused;
      if paused {
        outcome := OutcomePaused;
      } else if phase == Cancelled || (agent.Some? && agent.value.status == React.Cancelled) {
        outcome := OutcomeCancelled;
      } else if phase == Failed || (agent.Some? && agent.value.reason == Some(React.ReasonError)
                                    && agent.value.status != React.Completed) {
        outcome := OutcomeError;
      } else {
        outcome := OutcomeCompleted;
      }
      if agent.Some? {
        AppendSnapshots(finals);
      }
      log := log + [End(outcome)];
      status :=
        if outcome.OutcomeError? then PublicFailed
        else if outcome.OutcomeCancelled? then PublicCancelled
        else if phase == Completed then PublicCompleted
        else if phase == Cancelled then PublicCancelled
        else PublicFailed;
    }

    method AppendSnapshots(finals: seq<Snapshot>)
      modifies this`log
      ensures log == old(log) + FinalEvents(finals, {})
    {
      var emitted: set<string> := {};
      var i := 0;
      while i < |finals|
        invariant 0 <= i <= |finals|
        invariant old(log) + FinalEvents(finals, {}) == log + FinalEvents(finals[i..], emitted)
        decreases |finals| - i
      {
        var id := finals[i].id;
        assert finals[i..][0] == finals[i] && finals[i..][1..] == finals[i + 1..];
        if id == "" || id !in emitted {
          ghost var rest := FinalEvents(finals[i + 1..], Noted(emitted, id));
          assert log + ([FinalAssistant(id)] + rest) == log + [FinalAssistant(id)] + rest;
          log := log + [FinalAssistant(id)];
          if finals[i].raises {
            return;
          }
          emitted := Noted(emitted, id);
        }
        i := i + 1;
      }
    }
  }
}
