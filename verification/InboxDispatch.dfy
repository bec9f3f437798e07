/** The dispatcher of `InboxService` for one session: triggers coalesce into one live task, which
    claims the oldest next-turn item and delivers it.

    Steps are the stretches of the program between two suspension points; between them the other tasks
    may do any operation of the service on the inbox. The results hold for every interleaving while the
    service is open: at most one dispatch body runs (`AtMostOneBody`), a recorded trigger is never lost
    and is consumed after a bounded number of dispatch steps (`TriggerIsKept`, `TriggerIsConsumed`). An
    item leaves the queue through a dispatch only as was decided for it (`TakenAsDecided`), a dispatch
    that gives up takes nothing (`GivingUpTakesNothing`), and one that need not does its work
    (`EveryDispatchCarriesOn`). The dispatcher claims by request id what it chose earlier: a run keeps the
    order of the queue throughout if and only if every claim finds no older item waiting (`InOrderIff`),
    which holds unless an id is admitted again while a dispatch holds it (`ClaimsIncrease`,
    `ReuseBreaksTheOrder`). */
module InboxDispatch {
  import opened Prelude
  import I = Inbox
  import C = InboxClaim
  import O = InboxOps
  import R = InboxRuns

  datatype Phase =
    | Created
    | Idling
    | Looking
    | Deciding(candidate: I.Item)
    | Discarding(candidate: I.Item)
    | Claiming(candidate: I.Item)
    | Delivering
    | Leaving
    | Done

  /** `entry` is the session's slot in the task table; `claimed` lists the numbers claimed by
      dispatches. */
  datatype State = State(
    inbox: I.State,
    requested: bool,
    waitForIdle: bool,
    entry: Option<nat>,
    tasks: map<nat, Phase>,
    nextTask: nat,
    claimed: seq<int>)

  const Start := State(I.Empty, false, false, None, map[], 0, [])

  datatype Decision = Keep | Discard | Enter

  datatype Step =
    | Trigger(wait: bool)
    | Begin(task: nat, canReceive: bool)
    | Wake(task: nat, paused: bool)
    | Look(task: nat)
    | Decide(task: nat, decision: Decision)
    | DropCandidate(task: nat)
    | ClaimCandidate(task: nat)
    | Delivered(task: nat)
    | Fail(task: nat)
    | Finish(task: nat)
    | Elsewhere(op: R.Op)

  /** In the body of the dispatch, before its `finally` block. */
  predicate Running(phase: Phase) {
    phase != Created && phase != Leaving && phase != Done
  }

  predicate At(s: State, task: nat, phase: Phase) {
    task in s.tasks && s.tasks[task] == phase
  }

  predicate Live(s: State, task: nat) {
    task in s.tasks && s.tasks[task] != Done
  }

  /** `schedule_next_turn`: record the trigger, and create a task unless the slot holds a live one. */
  function Schedule(s: State, wait: bool): State {
    var recorded := s.(requested := true, waitForIdle := s.waitForIdle || wait);
    if s.entry.None? || !Live(s, s.entry.value) then
      recorded.(entry := Some(s.nextTask), tasks := s.tasks[s.nextTask := Created], nextTask := s.nextTask + 1)
    else recorded
  }

  /** The `finally` block: free the slot if it is ours and honour a trigger that came meanwhile. */
  function Exit(s: State, task: nat): State {
    var left := s.(tasks := s.tasks[task := Done], entry := if s.entry == Some(task) then None else s.entry);
    if left.requested then Schedule(left.(requested := false, waitForIdle := false), s.waitForIdle) else left
  }

  function Goto(s: State, task: nat, phase: Phase): State {
    s.(tasks := s.tasks[task := phase])
  }

  ghost predicate Enabled(s: State, step: Step) {
    match step
    case Trigger(_) => true
    case Begin(task, _) => At(s, task, Created)
    case Wake(task, _) => At(s, task, Idling)
    case Look(task) => At(s, task, Looking)
    case Decide(task, _) => task in s.tasks && s.tasks[task].Deciding?
    case DropCandidate(task) => task in s.tasks && s.tasks[task].Discarding?
    case ClaimCandidate(task) => task in s.tasks && s.tasks[task].Claiming?
    case Delivered(task) => At(s, task, Delivering)
    case Fail(task) => task in s.tasks && Running(s.tasks[task])
    case Finish(task) => At(s, task, Leaving)
    case Elsewhere(op) => R.FromService(op)
  }

  /** The candidate's id, for a task that has chosen one. */
  function ChosenId(s: State, task: nat): string {
    if task in s.tasks && CandidateOf(s.tasks[task]).Some? then CandidateOf(s.tasks[task]).value.requestId else ""
  }

  function CandidateOf(phase: Phase): Option<I.Item> {
    match phase
    case Deciding(c) => Some(c)
    case Discarding(c) => Some(c)
    case Claiming(c) => Some(c)
    case _ => None
  }

  function Decided(phase: Phase, decision: Decision): Phase {
    if !phase.Deciding? then phase
    else
      match decision
      case Keep => Leaving
      case Discard => Discarding(phase.candidate)
      case Enter => Claiming(phase.candidate)
  }

  function PhaseOfClaim(r: I.Claim): Phase {
    if r.Claimed? then Delivering else Leaving
  }

  /** Where a dispatch goes by one of its own steps. */
  function PhaseAfter(s: State, step: Step): Phase {
    match step
    case Begin(_, canReceive) => if s.waitForIdle then Idling else if canReceive then Looking else Leaving
    case Wake(_, paused) => if paused then Leaving else Looking
    case Look(_) => if s.inbox.nextTurn == [] then Leaving else Deciding(s.inbox.nextTurn[0])
    case Decide(task, decision) => if task in s.tasks then Decided(s.tasks[task], decision) else Leaving
    case ClaimCandidate(task) => PhaseOfClaim(I.ClaimItems(s.inbox, [ChosenId(s, task)]).1)
    case _ => Leaving
  }

  function AfterClaim(s: State, inbox: I.State, r: I.Claim): State {
    s.(inbox := inbox, claimed := s.claimed + (if r.Claimed? && r.items != [] then [r.items[0].sequence] else []))
  }

  /** What the step does besides: take the trigger, remove the candidate, or claim it. */
  function WorkOf(s: State, step: Step): State {
    match step
    case Begin(_, _) => s.(requested := false, waitForIdle := false)
    case DropCandidate(task) => s.(inbox := I.RemoveItem(s.inbox, ChosenId(s, task)).0)
    case ClaimCandidate(task) =>
      var (inbox, r) := I.ClaimItems(s.inbox, [ChosenId(s, task)]);
      AfterClaim(s, inbox, r)
    case _ => s
  }

  function Next(s: State, step: Step, capacity: nat): State {
    match step
    case Trigger(wait) => Schedule(s, wait)
    case Finish(task) => Exit(s, task)
    case Elsewhere(op) => s.(inbox := R.Apply(s.inbox, op, capacity).0)
    case _ => Goto(WorkOf(s, step), step.task, PhaseAfter(s, step))
  }

  /** A run from the start; `None` when some step was not enabled. */
  ghost function Run(steps: seq<Step>, capacity: nat): Option<State> {
    if steps == [] then Some(Start)
    else
      var before := Run(steps[..|steps| - 1], capacity);
      var last := steps[|steps| - 1];
      if before.None? || !Enabled(before.value, last) then None else Some(Next(before.value, last, capacity))
  }

  // ---------------------------------------------------------------- one body, no lost trigger

  /** The slot holds the one live task, and a recorded trigger has one. */
  ghost predicate SingleFlight(s: State) {
    && (forall t: nat :: Live(s, t) ==> s.entry == Some(t))
    && (s.entry.Some? ==> Live(s, s.entry.value))
    && (s.requested ==> s.entry.Some?)
    && (s.waitForIdle ==> s.requested)
    && (forall t :: t in s.tasks ==> t < s.nextTask)
  }

  /** A live task moving on, the slot and a trigger untouched. */
  lemma MovingOnKeepsSingleFlight(s: State, t: State, task: nat, phase: Phase)
    requires SingleFlight(s) && Live(s, task) && phase != Done
    requires t.tasks == s.tasks[task := phase] && t.entry == s.entry && t.nextTask == s.nextTask
    requires (t.requested ==> s.requested) && (t.waitForIdle ==> t.requested)
    ensures SingleFlight(t)
  {
  }

  predicate MovesOn(step: Step) {
    !step.Trigger? && !step.Finish? && !step.Elsewhere?
  }

  lemma StepKeepsSingleFlight(s: State, step: Step, capacity: nat)
    requires SingleFlight(s) && Enabled(s, step)
    ensures SingleFlight(Next(s, step, capacity))
  {
    if MovesOn(step) {
      StepMovesOn(s, step, capacity);
      var t := Next(s, step, capacity);
      MovingOnKeepsSingleFlight(s, t, step.task, PhaseAfter(s, step));
    } else if step.Finish? {
      ExitKeepsSingleFlight(s, step.task);
    }
  }

  /** What a step that moves on changes besides the inbox and the claims. */
  lemma StepMovesOn(s: State, step: Step, capacity: nat)
    requires SingleFlight(s) && Enabled(s, step) && MovesOn(step)
    ensures var t := Next(s, step, capacity);
      && Live(s, step.task) && PhaseAfter(s, step) != Done
      && t.tasks == s.tasks[step.task := PhaseAfter(s, step)] && t.entry == s.entry && t.nextTask == s.nextTask
      && (t.requested ==> s.requested) && (t.waitForIdle ==> t.requested)
  {
    WorkKeepsTasks(s, step);
  }

  lemma WorkKeepsTasks(s: State, step: Step)
    ensures var t := WorkOf(s, step);
      && t.tasks == s.tasks && t.entry == s.entry && t.nextTask == s.nextTask
      && (if step.Begin? then !t.requested && !t.waitForIdle
          else t.requested == s.requested && t.waitForIdle == s.waitForIdle)
  {
  }

  lemma ExitKeepsSingleFlight(s: State, task: nat)
    requires SingleFlight(s) && Live(s, task)
    ensures SingleFlight(Exit(s, task))
  {
  }

  lemma {:induction false} EveryRunIsSingleFlight(steps: seq<Step>, capacity: nat)
    requires Run(steps, capacity).Some?
    ensures SingleFlight(Run(steps, capacity).value)
  {
    if steps != [] {
      EveryRunIsSingleFlight(steps[..|steps| - 1], capacity);
      StepKeepsSingleFlight(Run(steps[..|steps| - 1], capacity).value, steps[|steps| - 1], capacity);
    }
  }

  /** No two dispatch bodies run at once, whatever the triggers and the interleaving. */
  lemma AtMostOneBody(steps: seq<Step>, capacity: nat, t: nat, u: nat)
    requires Run(steps, capacity).Some?
    requires Live(Run(steps, capacity).value, t) && Live(Run(steps, capacity).value, u)
    ensures t == u
  {
    EveryRunIsSingleFlight(steps, capacity);
  }

  /** A recorded trigger always has a live task; only a task's beginning takes the trigger, and
      together with the wish to wait. */
  lemma TriggerIsKept(steps: seq<Step>, capacity: nat, step: Step)
    requires Run(steps, capacity).Some? && Run(steps, capacity).value.requested
    requires Enabled(Run(steps, capacity).value, step) && !step.Begin?
    ensures var s := Run(steps, capacity).value;
      var t := Next(s, step, capacity);
      t.requested && (s.waitForIdle ==> t.waitForIdle) && t.entry.Some? && Live(t, t.entry.value)
  {
    EveryRunIsSingleFlight(steps, capacity);
    StepKeepsSingleFlight(Run(steps, capacity).value, step, capacity);
  }

  /** The live task behind a trigger can always go on: it has not begun and can take the trigger, or it
      is running, or it is leaving and leaves behind a task that has not begun. */
  lemma TriggerHasATask(steps: seq<Step>, capacity: nat)
    requires Run(steps, capacity).Some? && Run(steps, capacity).value.requested
    ensures var s := Run(steps, capacity).value;
      && s.entry.Some?
      && var t := s.entry.value;
         && Live(s, t)
         && (Enabled(s, Begin(t, true)) || Enabled(s, Fail(t)) || Enabled(s, Finish(t)))
         && (Enabled(s, Finish(t)) ==>
               var u := Next(s, Finish(t), capacity);
               u.requested && u.entry.Some? && At(u, u.entry.value, Created) && u.waitForIdle == s.waitForIdle)
  {
    EveryRunIsSingleFlight(steps, capacity);
  }

  // ---------------------------------------------------------------- a trigger is consumed

  /** How many steps a live task still takes before one that has not begun stands in its place. */
  function Rank(phase: Phase): nat {
    match phase
    case Created => 0
    case Idling => 6
    case Looking => 5
    case Deciding(_) => 4
    case Discarding(_) => 3
    case Claiming(_) => 3
    case Delivering => 2
    case Leaving => 1
    case Done => 0
  }

  function Pending(s: State): nat {
    if s.entry.Some? && s.entry.value in s.tasks then Rank(s.tasks[s.entry.value]) else 0
  }

  predicate IsDispatch(step: Step) {
    !step.Trigger? && !step.Elsewhere?
  }

  /** While a trigger is recorded every step of a dispatch takes it or lowers the rank; no other step
      changes either. */
  lemma RankFalls(s: State, step: Step, capacity: nat)
    requires SingleFlight(s) && s.requested && Enabled(s, step) && !step.Begin?
    ensures Next(s, step, capacity).requested
    ensures if IsDispatch(step) then Pending(Next(s, step, capacity)) < Pending(s)
            else Pending(Next(s, step, capacity)) == Pending(s)
  {
    if MovesOn(step) {
      assert s.entry == Some(step.task);
      StepMovesOn(s, step, capacity);
      WorkKeepsTasks(s, step);
      MovingLowersRank(s, step);
    } else if step.Finish? {
      assert s.entry == Some(step.task);
    }
  }

  lemma ClaimingLowersRank(s: State, task: nat)
    requires Enabled(s, ClaimCandidate(task))
    ensures Rank(PhaseAfter(s, ClaimCandidate(task))) < Rank(s.tasks[task])
  {
    ClaimsRank(I.ClaimItems(s.inbox, [ChosenId(s, task)]).1);
  }

  lemma ClaimsRank(r: I.Claim)
    ensures Rank(PhaseOfClaim(r)) <= 2
  {
  }

  lemma OtherStepLowersRank(s: State, step: Step)
    requires Enabled(s, step) && MovesOn(step) && !step.Begin? && !step.ClaimCandidate?
    ensures step.task in s.tasks && Rank(PhaseAfter(s, step)) < Rank(s.tasks[step.task])
  {
  }

  lemma MovingLowersRank(s: State, step: Step)
    requires Enabled(s, step) && MovesOn(step) && !step.Begin?
    ensures step.task in s.tasks && Rank(PhaseAfter(s, step)) < Rank(s.tasks[step.task])
  {
    if step.ClaimCandidate? {
      ClaimingLowersRank(s, step.task);
    } else {
      OtherStepLowersRank(s, step);
    }
  }

  function DispatchSteps(steps: seq<Step>): nat {
    if steps == [] then 0
    else DispatchSteps(steps[..|steps| - 1]) + Cost(steps[|steps| - 1])
  }

  function Cost(step: Step): nat {
    if IsDispatch(step) then 1 else 0
  }

  predicate NoneBegins(steps: seq<Step>) {
    steps == [] || (NoneBegins(steps[..|steps| - 1]) && !steps[|steps| - 1].Begin?)
  }

  lemma LastStepFalls(front: seq<Step>, last: Step, capacity: nat)
    requires Run(front + [last], capacity).Some? && !last.Begin?
    ensures Run(front, capacity).Some?
    ensures Run(front, capacity).value.requested ==>
              && Run(front + [last], capacity).value.requested
              && Cost(last) + Pending(Run(front + [last], capacity).value) <= Pending(Run(front, capacity).value)
  {
    assert (front + [last])[..|front|] == front;
    if Run(front, capacity).value.requested {
      EveryRunIsSingleFlight(front, capacity);
      RankFalls(Run(front, capacity).value, last, capacity);
    }
  }

  lemma {:induction false} DispatchStepsLowerRank(before: seq<Step>, more: seq<Step>, capacity: nat)
    requires Run(before, capacity).Some? && Run(before, capacity).value.requested
    requires Run(before + more, capacity).Some? && NoneBegins(more)
    ensures var s := Run(before + more, capacity).value;
      s.requested && DispatchSteps(more) + Pending(s) <= Pending(Run(before, capacity).value)
  {
    if more == [] {
      assert before + more == before;
    } else {
      var front, last := more[..|more| - 1], more[|more| - 1];
      assert before + more == (before + front) + [last];
      LastStepFalls(before + front, last, capacity);
      DispatchStepsLowerRank(before, front, capacity);
    }
  }

  lemma RankIsSmall(s: State)
    ensures Pending(s) <= 6
  {
  }

  /** In every run a recorded trigger is taken by the beginning of a dispatch before the dispatches have
      made seven more steps, whatever happens in between. */
  lemma TriggerIsConsumed(before: seq<Step>, more: seq<Step>, capacity: nat)
    requires Run(before, capacity).Some? && Run(before, capacity).value.requested
    requires Run(before + more, capacity).Some? && NoneBegins(more)
    ensures DispatchSteps(more) <= 6 && Run(before + more, capacity).value.requested
  {
    DispatchStepsLowerRank(before, more, capacity);
    RankIsSmall(Run(before, capacity).value);
  }

  // ---------------------------------------------------------------- decisions are followed

  /** The task that a step of a dispatch belongs to. */
  function TaskOf(step: Step): Option<nat> {
    if IsDispatch(step) then Some(step.task) else None
  }

  /** What was last decided for the task's candidate. */
  function LastDecision(steps: seq<Step>, task: nat): Option<Decision> {
    if steps == [] then None else NextDecision(LastDecision(steps[..|steps| - 1], task), steps[|steps| - 1], task)
  }

  function NextDecision(before: Option<Decision>, step: Step, task: nat): Option<Decision> {
    if step.Decide? && step.task == task then Some(step.decision) else before
  }

  /** A kept candidate is left alone, a discarded one is dropped, and one to enter is claimed. */
  predicate Follows(phase: Phase, decision: Option<Decision>) {
    match decision
    case None => !phase.Discarding? && !phase.Claiming? && !phase.Delivering?
    case Some(Keep) => phase.Leaving? || phase.Done?
    case Some(Discard) => phase.Discarding? || phase.Leaving? || phase.Done?
    case Some(Enter) => phase.Claiming? || phase.Delivering? || phase.Leaving? || phase.Done?
  }

  lemma PhaseFollows(s: State, step: Step, decision: Option<Decision>)
    requires MovesOn(step) && Enabled(s, step) && Follows(s.tasks[step.task], decision) && !step.ClaimCandidate?
    ensures Follows(PhaseAfter(s, step), NextDecision(decision, step, step.task))
  {
  }

  lemma ClaimFollows(s: State, task: nat, decision: Option<Decision>)
    requires Enabled(s, ClaimCandidate(task)) && Follows(s.tasks[task], decision)
    ensures Follows(PhaseAfter(s, ClaimCandidate(task)), decision)
  {
    EnterFollows(I.ClaimItems(s.inbox, [ChosenId(s, task)]).1);
  }

  lemma EnterFollows(r: I.Claim)
    ensures Follows(PhaseOfClaim(r), Some(Enter))
  {
  }

  /** Every task follows what was decided for it, and nothing was decided for tasks to come. */
  ghost predicate AllFollow(s: State, steps: seq<Step>) {
    && (forall t :: t in s.tasks ==> Follows(s.tasks[t], LastDecision(steps, t)))
    && (forall t: nat :: t !in s.tasks ==> LastDecision(steps, t) == None)
  }

  lemma DecisionSnoc(steps: seq<Step>, step: Step, task: nat)
    ensures LastDecision(steps + [step], task) == NextDecision(LastDecision(steps, task), step, task)
  {
    assert (steps + [step])[..|steps|] == steps;
  }

  /** The tasks after a step: those of before, one of them moved on or done, and perhaps a new one. */
  ghost predicate TasksMove(s: State, step: Step, t: State) {
    && (forall u :: u in s.tasks ==> u in t.tasks)
    && (forall u :: u in s.tasks && TaskOf(step) != Some(u) ==> t.tasks[u] == s.tasks[u])
    && (forall u :: u in t.tasks && u !in s.tasks ==> t.tasks[u] == Created)
    && (IsDispatch(step) ==> step.task in s.tasks && step.task in t.tasks)
    && (MovesOn(step) ==> t.tasks[step.task] == PhaseAfter(s, step))
    && (step.Finish? ==> t.tasks[step.task] == Done)
  }

  lemma NextMovesTasks(s: State, step: Step, capacity: nat)
    requires SingleFlight(s) && Enabled(s, step)
    ensures TasksMove(s, step, Next(s, step, capacity))
  {
    if MovesOn(step) {
      StepMovesOn(s, step, capacity);
    } else if step.Finish? {
      assert s.nextTask !in s.tasks;
    }
  }

  lemma MovedFollow(s: State, step: Step, t: State, steps: seq<Step>)
    requires Enabled(s, step) && TasksMove(s, step, t) && AllFollow(s, steps)
    ensures AllFollow(t, steps + [step])
  {
    forall u: nat
      ensures LastDecision(steps + [step], u) == NextDecision(LastDecision(steps, u), step, u)
    {
      DecisionSnoc(steps, step, u);
    }
    if MovesOn(step) {
      if step.ClaimCandidate? {
        ClaimFollows(s, step.task, LastDecision(steps, step.task));
      } else {
        PhaseFollows(s, step, LastDecision(steps, step.task));
      }
    }
  }

  lemma {:induction false} EveryRunFollows(steps: seq<Step>, capacity: nat)
    requires Run(steps, capacity).Some?
    ensures AllFollow(Run(steps, capacity).value, steps)
  {
    if steps != [] {
      var front, last := steps[..|steps| - 1], steps[|steps| - 1];
      var s := Run(front, capacity).value;
      EveryRunFollows(front, capacity);
      EveryRunIsSingleFlight(front, capacity);
      NextMovesTasks(s, last, capacity);
      MovedFollow(s, last, Run(steps, capacity).value, front);
      assert front + [last] == steps;
    }
  }

  /** Only dropping and claiming touch the inbox. */
  lemma OtherStepsKeepInbox(s: State, step: Step, capacity: nat)
    requires IsDispatch(step) && !step.DropCandidate? && !step.ClaimCandidate?
    ensures Next(s, step, capacity).inbox == s.inbox
  {
  }

  lemma RunSnoc(steps: seq<Step>, step: Step, capacity: nat)
    requires Run(steps + [step], capacity).Some?
    ensures Run(steps, capacity).Some? && Enabled(Run(steps, capacity).value, step)
    ensures Run(steps + [step], capacity).value == Next(Run(steps, capacity).value, step, capacity)
  {
    assert (steps + [step])[..|steps|] == steps;
  }

  /** In every run a dispatch takes something out of the inbox only by dropping a candidate that was to
      be discarded, or by claiming one that was to enter. */
  lemma TakenAsDecided(steps: seq<Step>, step: Step, capacity: nat)
    requires Run(steps + [step], capacity).Some? && IsDispatch(step)
    ensures Run(steps, capacity).Some?
    ensures Run(steps + [step], capacity).value.inbox != Run(steps, capacity).value.inbox ==>
              || (step.DropCandidate? && LastDecision(steps, step.task) == Some(Discard))
              || (step.ClaimCandidate? && LastDecision(steps, step.task) == Some(Enter))
  {
    RunSnoc(steps, step, capacity);
    EveryRunFollows(steps, capacity);
    var s := Run(steps, capacity).value;
    if step.DropCandidate? || step.ClaimCandidate? {
      FollowedBy(s, step, LastDecision(steps, step.task));
    } else {
      OtherStepsKeepInbox(s, step, capacity);
    }
  }

  lemma FollowedBy(s: State, step: Step, decision: Option<Decision>)
    requires Enabled(s, step) && (step.DropCandidate? || step.ClaimCandidate?)
    requires Follows(s.tasks[step.task], decision)
    ensures decision == Some(if step.DropCandidate? then Discard else Enter)
  {
  }

  /** The task is over or about to be. */
  predicate IsLeaving(s: State, task: nat) {
    task in s.tasks && (s.tasks[task] == Leaving || s.tasks[task] == Done)
  }

  lemma LeavingStays(s: State, step: Step, task: nat, capacity: nat)
    requires SingleFlight(s) && Enabled(s, step) && IsLeaving(s, task)
    ensures IsLeaving(Next(s, step, capacity), task)
    ensures TaskOf(step) == Some(task) ==> Next(s, step, capacity).inbox == s.inbox
  {
    NextMovesTasks(s, step, capacity);
    if TaskOf(step) == Some(task) {
      LeavingFinishes(s, step, task);
      OtherStepsKeepInbox(s, step, capacity);
    }
  }

  lemma LeavingFinishes(s: State, step: Step, task: nat)
    requires Enabled(s, step) && IsLeaving(s, task) && TaskOf(step) == Some(task)
    ensures step == Finish(task)
  {
  }

  /** The task's own steps among the further ones leave the inbox as it is. */
  ghost predicate OwnStepsAreQuiet(before: seq<Step>, more: seq<Step>, task: nat, capacity: nat)
    requires Run(before + more, capacity).Some?
  {
    more == []
    || (var front, last := more[..|more| - 1], more[|more| - 1];
        assert before + more == (before + front) + [last];
        RunSnoc(before + front, last, capacity);
        && OwnStepsAreQuiet(before, front, task, capacity)
        && (TaskOf(last) == Some(task) ==>
              Run(before + more, capacity).value.inbox == Run(before + front, capacity).value.inbox))
  }

  lemma {:induction false} QuietOnceLeaving(before: seq<Step>, more: seq<Step>, task: nat, capacity: nat)
    requires Run(before + more, capacity).Some? && Run(before, capacity).Some?
    requires IsLeaving(Run(before, capacity).value, task)
    ensures IsLeaving(Run(before + more, capacity).value, task) && OwnStepsAreQuiet(before, more, task, capacity)
  {
    if more == [] {
      assert before + more == before;
    } else {
      var front, last := more[..|more| - 1], more[|more| - 1];
      assert before + more == (before + front) + [last];
      RunSnoc(before + front, last, capacity);
      QuietOnceLeaving(before, front, task, capacity);
      EveryRunIsSingleFlight(before + front, capacity);
      LeavingStays(Run(before + front, capacity).value, last, task, capacity);
    }
  }

  /** The steps by which a dispatch gives up on what it looked at: a decision to keep it, a failure, and
      leaving before or without a candidate. */
  ghost predicate GivesUp(s: State, step: Step) {
    || (step.Decide? && step.decision == Keep)
    || step.Fail?
    || (step.Begin? && !s.waitForIdle && !step.canReceive)
    || (step.Wake? && step.paused)
    || (step.Look? && s.inbox.nextTurn == [])
  }

  lemma GivingUpLeaves(s: State, step: Step, capacity: nat)
    requires SingleFlight(s) && Enabled(s, step) && GivesUp(s, step)
    ensures IsLeaving(Next(s, step, capacity), step.task) && Next(s, step, capacity).inbox == s.inbox
  {
    NextMovesTasks(s, step, capacity);
    OtherStepsKeepInbox(s, step, capacity);
  }

  /** In every run a dispatch that gives up, keeps the item or fails leaves the inbox as it is, then and
      in all its further steps. */
  lemma GivingUpTakesNothing(before: seq<Step>, step: Step, more: seq<Step>, capacity: nat)
    requires Run(before + [step], capacity).Some? && Run((before + [step]) + more, capacity).Some?
    requires Run(before, capacity).Some? && IsDispatch(step) && GivesUp(Run(before, capacity).value, step)
    ensures Run(before + [step], capacity).value.inbox == Run(before, capacity).value.inbox
    ensures OwnStepsAreQuiet(before + [step], more, step.task, capacity)
  {
    RunSnoc(before, step, capacity);
    EveryRunIsSingleFlight(before, capacity);
    GivingUpLeaves(Run(before, capacity).value, step, capacity);
    QuietOnceLeaving(before + [step], more, step.task, capacity);
  }

  /** Where a dispatch that need not give up goes next, and what it does to the inbox there. */
  ghost predicate CarriesOn(s: State, step: Step, phase: Phase, inbox: I.State)
    requires Enabled(s, step)
  {
    match step
    case Begin(_, canReceive) =>
      phase == (if s.waitForIdle then Idling else if canReceive then Looking else Leaving)
    case Wake(_, paused) => phase == (if paused then Leaving else Looking)
    case Look(_) => s.inbox.nextTurn != [] ==> phase == Deciding(s.inbox.nextTurn[0])
    case Decide(task, decision) =>
      && (decision == Discard ==> phase == Discarding(s.tasks[task].candidate))
      && (decision == Enter ==> phase == Claiming(s.tasks[task].candidate))
    case DropCandidate(task) =>
      phase == Leaving && inbox == I.RemoveItem(s.inbox, s.tasks[task].candidate.requestId).0
    case ClaimCandidate(task) =>
      var (left, r) := I.ClaimItems(s.inbox, [s.tasks[task].candidate.requestId]);
      inbox == left && phase == (if r.Claimed? then Delivering else Leaving)
    case _ => true
  }

  /** In every run a dispatch waits for idleness if that was asked for, looks if it may, takes the first turn as
      its candidate, and drops or claims exactly that candidate as was decided. */
  lemma EveryDispatchCarriesOn(steps: seq<Step>, step: Step, capacity: nat)
    requires Run(steps + [step], capacity).Some? && MovesOn(step)
    ensures Run(steps, capacity).Some? && Enabled(Run(steps, capacity).value, step)
    ensures var t := Run(steps + [step], capacity).value;
      step.task in t.tasks && CarriesOn(Run(steps, capacity).value, step, t.tasks[step.task], t.inbox)
  {
    RunSnoc(steps, step, capacity);
    EveryRunIsSingleFlight(steps, capacity);
    var s := Run(steps, capacity).value;
    StepMovesOn(s, step, capacity);
    StepCarriesOn(s, step, capacity);
  }

  lemma StepCarriesOn(s: State, step: Step, capacity: nat)
    requires Enabled(s, step) && MovesOn(step)
    ensures CarriesOn(s, step, PhaseAfter(s, step), Next(s, step, capacity).inbox)
  {
  }

  // ---------------------------------------------------------------- the order of claims

  /** The identities of waiting items. */
  ghost function Keys(items: seq<I.Item>): set<(string, int)> {
    set x | x in items :: (x.requestId, x.sequence)
  }

  ghost function AllKeys(inbox: I.State): set<(string, int)> {
    Keys(inbox.nextTurn) + Keys(inbox.nextStep)
  }

  /** The admission of an item that was not refused as a duplicate, as seen or for lack of room. */
  predicate Admits(inbox: I.State, op: R.Op, capacity: nat) {
    op.AdmitOp? && R.Apply(inbox, op, capacity).1.commits
  }

  /** The key an operation adds. */
  ghost function NewKey(inbox: I.State, op: R.Op, capacity: nat): set<(string, int)> {
    if Admits(inbox, op, capacity) then {(op.item.requestId, inbox.nextSequence)} else {}
  }

  /** Nothing enters the turn queue except a newly admitted item. */
  ghost predicate OnlyNewTurns(s: I.State, t: I.State, added: set<(string, int)>) {
    Keys(t.nextTurn) <= Keys(s.nextTurn) + added && AllKeys(t) <= AllKeys(s) + added
  }

  lemma WithoutKeys(items: seq<I.Item>, ids: set<string>)
    ensures Keys(I.Without(items, ids)) <= Keys(items)
    ensures forall k :: k in Keys(I.Without(items, ids)) ==> k.0 !in ids
  {
    I.WithoutMembers(items, ids);
  }

  lemma WithoutTurns(s: I.State, t: I.State, ids: set<string>)
    requires t.nextTurn == I.Without(s.nextTurn, ids) && t.nextStep == I.Without(s.nextStep, ids)
    ensures OnlyNewTurns(s, t, {})
  {
    WithoutKeys(s.nextTurn, ids);
    WithoutKeys(s.nextStep, ids);
  }

  lemma ClaimTurns(s: I.State, ids: seq<string>)
    requires I.Validates(s) && C.Distinct(ids)
    ensures OnlyNewTurns(s, I.ClaimItems(s, ids).0, {})
  {
    if ids != [] {
      C.ClaimIsAFilter(s, ids);
      if C.AllPending(s, ids) {
        WithoutTurns(s, C.Claimless(s, ids), C.Named(ids));
      }
    }
  }

  lemma RemoveTurns(s: I.State, id: string)
    requires I.Validates(s)
    ensures OnlyNewTurns(s, I.RemoveItem(s, id).0, {})
  {
    O.RemoveIsWithout(s, id);
    if I.Find(s, id).Some? {
      WithoutTurns(s, I.RemoveItem(s, id).0, {id});
    }
  }

  lemma PromoteTurns(s: I.State, id: string)
    requires I.Validates(s)
    ensures OnlyNewTurns(s, I.PromoteItem(s, id).0, {})
  {
    var hit := I.Find(s, id);
    if hit.Some? && hit.value.target == I.NextTurn {
      O.PromotedQueues(s, id, hit.value);
      assert I.ItemAt(s, hit.value) in s.nextTurn;
    }
  }

  lemma AdmitTurns(s: I.State, item: I.Item, target: I.Target, seen: bool, capacity: nat)
    requires R.Sound(s, capacity) && item.sequence <= 0 && R.Persistable(item)
    ensures var (t, r) := I.Admit(s, item, target, seen, capacity);
      OnlyNewTurns(s, t, if r.Admitted? then {(item.requestId, s.nextSequence)} else {})
  {
    R.AdmitMoves(s, item, target, seen, capacity);
    if I.Admit(s, item, target, seen, capacity).1.Admitted? {
      EnqueueTurns(s, item, target);
    }
  }

  lemma KeysSnoc(items: seq<I.Item>, x: I.Item)
    ensures Keys(items + [x]) == Keys(items) + {(x.requestId, x.sequence)}
  {
    assert forall y :: y in items + [x] <==> y in items || y == x;
  }

  lemma EnqueueTurns(s: I.State, item: I.Item, target: I.Target)
    requires item.sequence <= 0
    ensures OnlyNewTurns(s, I.Enqueue(s, item, target), {(item.requestId, s.nextSequence)})
  {
    KeysSnoc(I.Queue(s, target), item.(sequence := s.nextSequence));
  }

  lemma EditTurns(s: I.State, id: string, content: string, attachments: seq<string>)
    requires I.Validates(s)
    ensures OnlyNewTurns(s, I.EditItem(s, id, content, attachments).0, {})
  {
    O.EditKeepsPlaces(s, id, content, attachments);
    EditedKeys(s.nextTurn, id, content, attachments);
    EditedKeys(s.nextStep, id, content, attachments);
  }

  lemma EditedKeys(items: seq<I.Item>, id: string, content: string, attachments: seq<string>)
    ensures Keys(O.Edited(items, id, content, attachments)) <= Keys(items)
  {
    var r := O.Edited(items, id, content, attachments);
    forall k | k in Keys(r)
      ensures k in Keys(items)
    {
      var j :| 0 <= j < |r| && (r[j].requestId, r[j].sequence) == k;
      assert items[j] in items;
    }
  }

  lemma OperationTurns(s: I.State, op: R.Op, capacity: nat)
    requires R.Sound(s, capacity) && R.FromService(op)
    ensures OnlyNewTurns(s, R.Apply(s, op, capacity).0, NewKey(s, op, capacity))
  {
    match op {
      case AdmitOp(item, target, seen) => AdmitTurns(s, item, target, seen, capacity);
      case ClaimOp(ids) => ClaimTurns(s, ids);
      case RemoveOp(id) => RemoveTurns(s, id);
      case EditOp(id, content, attachments) => EditTurns(s, id, content, attachments);
      case PromoteOp(id) => PromoteTurns(s, id);
    }
  }

  ghost predicate Increasing(ns: seq<int>) {
    forall i, j :: 0 <= i < j < |ns| ==> ns[i] < ns[j]
  }

  /** Everything claimed is older than `n`. */
  ghost predicate AllBelow(claimed: seq<int>, n: int) {
    forall k :: 0 <= k < |claimed| ==> claimed[k] < n
  }

  ghost predicate TurnsAreNewer(turns: set<(string, int)>, claimed: seq<int>) {
    forall k :: k in turns ==> AllBelow(claimed, k.1)
  }

  /** The dispatches have followed the queue: their claims increase, and what waits is newer. */
  ghost predicate Ordered(s: State) {
    Increasing(s.claimed) && TurnsAreNewer(Keys(s.inbox.nextTurn), s.claimed)
  }

  /** What waits under the candidate's id is newer than everything claimed. */
  ghost predicate FreshUnder(all: set<(string, int)>, claimed: seq<int>, id: string) {
    forall k :: k in all && k.0 == id ==> AllBelow(claimed, k.1)
  }

  ghost predicate Candidates(s: State) {
    forall t :: t in s.tasks && CandidateOf(s.tasks[t]).Some? ==>
      FreshUnder(AllKeys(s.inbox), s.claimed, CandidateOf(s.tasks[t]).value.requestId)
  }

  /** What holds in every state, in order or not. */
  ghost predicate Sane(s: State, capacity: nat) {
    R.Sound(s.inbox, capacity) && AllBelow(s.claimed, s.inbox.nextSequence)
  }

  ghost predicate OrderInv(s: State, capacity: nat) {
    Sane(s, capacity) && Ordered(s) && Candidates(s)
  }

  /** `inbox` may follow `s` by an operation that may add the keys `added`. */
  ghost predicate MayBecome(s: I.State, inbox: I.State, added: set<(string, int)>, capacity: nat) {
    && R.Sound(inbox, capacity) && s.nextSequence <= inbox.nextSequence && OnlyNewTurns(s, inbox, added)
    && forall k :: k in added ==> k.1 == s.nextSequence
  }

  lemma OperationMayBecome(s: I.State, op: R.Op, capacity: nat)
    requires R.Sound(s, capacity) && R.FromService(op)
    ensures MayBecome(s, R.Apply(s, op, capacity).0, NewKey(s, op, capacity), capacity)
  {
    R.ApplyIsLawful(s, op, capacity);
    OperationTurns(s, op, capacity);
  }

  /** A change of the inbox that adds at most the next number keeps everything. */
  lemma ChangeKeepsOrder(s: State, t: State, added: set<(string, int)>, capacity: nat)
    requires Sane(s, capacity) && MayBecome(s.inbox, t.inbox, added, capacity) && t.claimed == s.claimed
    ensures Sane(t, capacity)
    ensures Ordered(s) ==> Ordered(t)
    ensures forall id :: FreshUnder(AllKeys(s.inbox), s.claimed, id) ==> FreshUnder(AllKeys(t.inbox), t.claimed, id)
  {
  }

  // ---------------------------------------------------------------- what a claim takes

  /** The item that waits under an id. */
  function Standing(inbox: I.State, id: string): Option<I.Item> {
    var hit := I.Find(inbox, id);
    if hit.Some? then Some(I.ItemAt(inbox, hit.value)) else None
  }

  /** No item waiting for a turn is older than the one that stands under the id, if one does. */
  ghost predicate NoneOlder(inbox: I.State, id: string) {
    Standing(inbox, id).Some? ==>
      forall k :: k in Keys(inbox.nextTurn) ==> k.1 >= Standing(inbox, id).value.sequence
  }

  /** Claiming one id takes exactly the item that stands under it. */
  lemma ClaimTakesTheStanding(inbox: I.State, id: string)
    requires I.Validates(inbox)
    ensures var (left, r) := I.ClaimItems(inbox, [id]);
      match Standing(inbox, id)
      case None => left == inbox && r == I.Nothing
      case Some(x) => left == C.Claimless(inbox, [id]) && r == I.Claimed([x])
  {
    C.ClaimIsAFilter(inbox, [id]);
    I.FindFinds(inbox, id);
    if Standing(inbox, id).Some? {
      TheOneNamed(inbox, Standing(inbox, id).value, [id], I.ClaimItems(inbox, [id]).1.items);
    }
  }

  lemma TheOneNamed(s: I.State, x: I.Item, ids: seq<string>, items: seq<I.Item>)
    requires I.Validates(s) && I.Holds(s, x) && ids == [x.requestId] && C.Fetched(s, ids, items)
    ensures items == [x]
  {
    R.OnePerNumber(s);
    assert items[0].requestId == ids[0];
  }

  lemma StandingHas(inbox: I.State, id: string)
    requires Standing(inbox, id).Some?
    ensures var x := Standing(inbox, id).value;
      I.Holds(inbox, x) && x.requestId == id && (id, x.sequence) in AllKeys(inbox)
  {
    I.FindFinds(inbox, id);
  }

  lemma BelowSnoc(claimed: seq<int>, m: int, n: int)
    ensures AllBelow(claimed + [m], n) <==> AllBelow(claimed, n) && m < n
  {
    assert (claimed + [m])[|claimed|] == m;
    assert forall k :: 0 <= k < |claimed| ==> (claimed + [m])[k] == claimed[k];
  }

  lemma IncreasingSnoc(claimed: seq<int>, m: int)
    requires Increasing(claimed) && AllBelow(claimed, m)
    ensures Increasing(claimed + [m])
  {
  }

  /** What is left of the turn queue, and which of it may be older than the item taken. */
  lemma LeftInTurn(inbox: I.State, x: I.Item)
    requires I.Validates(inbox) && I.Holds(inbox, x)
    ensures var left := Keys(I.Without(inbox.nextTurn, {x.requestId}));
      && left <= Keys(inbox.nextTurn)
      && (forall k :: k in Keys(inbox.nextTurn) && k !in left ==> k.1 == x.sequence)
      && (forall k :: k in left ==> k.1 != x.sequence)
  {
    WithoutKeys(inbox.nextTurn, {x.requestId});
    I.WithoutMembers(inbox.nextTurn, {x.requestId});
    R.OnePerNumber(inbox);
    forall k | k in Keys(inbox.nextTurn) && k !in Keys(I.Without(inbox.nextTurn, {x.requestId}))
      ensures k.1 == x.sequence
    {
      var y :| y in inbox.nextTurn && (y.requestId, y.sequence) == k;
      assert I.Holds(inbox, y) && y.requestId == x.requestId;
    }
    forall k | k in Keys(I.Without(inbox.nextTurn, {x.requestId}))
      ensures k.1 != x.sequence
    {
      var y :| y in I.Without(inbox.nextTurn, {x.requestId}) && (y.requestId, y.sequence) == k;
      assert y in inbox.nextTurn && I.Holds(inbox, y);
    }
  }

  /** Taking `x` keeps the order exactly if nothing left in the turn queue is older. */
  lemma TakingKeepsOrder(turns: set<(string, int)>, left: set<(string, int)>, claimed: seq<int>, n: int)
    requires Increasing(claimed) && TurnsAreNewer(turns, claimed) && AllBelow(claimed, n)
    requires left <= turns && (forall k :: k in left ==> k.1 != n)
    requires forall k :: k in turns && k !in left ==> k.1 == n
    ensures Increasing(claimed + [n])
    ensures TurnsAreNewer(left, claimed + [n]) <==> forall k :: k in turns ==> k.1 >= n
  {
    IncreasingSnoc(claimed, n);
    forall k | k in left
      ensures AllBelow(claimed + [n], k.1) <==> n < k.1
    {
      BelowSnoc(claimed, n, k.1);
    }
  }

  // ---------------------------------------------------------------- the order, step by step

  /** A live task without a candidate: no other task has one either. */
  lemma OnlyTaskHasCandidate(s: State, t: State, task: nat, phase: Phase)
    requires SingleFlight(s) && Live(s, task) && t.tasks == s.tasks[task := phase] && CandidateOf(phase).None?
    ensures Candidates(t)
  {
    forall u | u in t.tasks
      ensures CandidateOf(t.tasks[u]).None?
    {
      if u != task {
        assert !Live(s, u);
      }
    }
  }

  /** What a claim of the id `id` by the task does. */
  ghost predicate ClaimedBy(s: State, t: State, task: nat, id: string) {
    match Standing(s.inbox, id)
    case None => t == Goto(s, task, Leaving)
    case Some(x) =>
      t == Goto(s, task, Delivering).(inbox := C.Claimless(s.inbox, [id]), claimed := s.claimed + [x.sequence])
  }

  lemma ClaimStepIs(s: State, task: nat, capacity: nat)
    requires I.Validates(s.inbox) && task in s.tasks && s.tasks[task].Claiming?
    ensures ClaimedBy(s, Next(s, ClaimCandidate(task), capacity), task, ChosenId(s, task))
  {
    var id := ChosenId(s, task);
    var (left, r) := I.ClaimItems(s.inbox, [id]);
    ClaimTakesTheStanding(s.inbox, id);
    ClaimWorks(s, task, id, left, r);
    NextClaimIs(s, task, left, r, capacity);
  }

  lemma NextClaimIs(s: State, task: nat, left: I.State, r: I.Claim, capacity: nat)
    requires I.ClaimItems(s.inbox, [ChosenId(s, task)]) == (left, r)
    ensures Next(s, ClaimCandidate(task), capacity)
         == Goto(AfterClaim(s, left, r), task, PhaseOfClaim(r))
  {
  }

  lemma ClaimWorks(s: State, task: nat, id: string, left: I.State, r: I.Claim)
    requires match Standing(s.inbox, id)
             case None => left == s.inbox && r == I.Nothing
             case Some(x) => left == C.Claimless(s.inbox, [id]) && r == I.Claimed([x])
    ensures ClaimedBy(s, Goto(AfterClaim(s, left, r), task, PhaseOfClaim(r)), task, id)
  {
    assert s.claimed + [] == s.claimed;
  }

  /** For every state reached in order: a claim keeps the order if and only if no older item waits for
      a turn, and whatever it does the numbers stay sane. */
  lemma ClaimKeepsOrderIff(s: State, task: nat, capacity: nat)
    requires SingleFlight(s) && OrderInv(s, capacity) && Enabled(s, ClaimCandidate(task))
    ensures var t := Next(s, ClaimCandidate(task), capacity);
      && Sane(t, capacity) && Candidates(t)
      && (Ordered(t) <==> NoneOlder(s.inbox, ChosenId(s, task)))
  {
    CandidateIsFresh(s, task);
    ClaimStepIs(s, task, capacity);
    ClaimedOrNot(s, Next(s, ClaimCandidate(task), capacity), task, ChosenId(s, task), capacity);
  }

  lemma CandidateIsFresh(s: State, task: nat)
    requires Candidates(s) && task in s.tasks && s.tasks[task].Claiming?
    ensures FreshUnder(AllKeys(s.inbox), s.claimed, ChosenId(s, task))
  {
    assert CandidateOf(s.tasks[task]) == Some(s.tasks[task].candidate);
  }

  /** The same for a state `t` known to be what the claim leads to. */
  lemma ClaimedOrNot(s: State, t: State, task: nat, id: string, capacity: nat)
    requires SingleFlight(s) && Sane(s, capacity) && Ordered(s) && Live(s, task)
    requires FreshUnder(AllKeys(s.inbox), s.claimed, id) && ClaimedBy(s, t, task, id)
    ensures Sane(t, capacity) && Candidates(t) && (Ordered(t) <==> NoneOlder(s.inbox, id))
  {
    ClaimedLeavesNoCandidate(s, t, task, id);
    if Standing(s.inbox, id).Some? {
      StandingClaimed(s, t, id, capacity);
    } else {
      ClaimedNothing(s, t, task, id, capacity);
    }
  }

  lemma ClaimedLeavesNoCandidate(s: State, t: State, task: nat, id: string)
    requires SingleFlight(s) && Live(s, task) && ClaimedBy(s, t, task, id)
    ensures Candidates(t)
  {
    OnlyTaskHasCandidate(s, t, task, if Standing(s.inbox, id).None? then Leaving else Delivering);
  }

  lemma ClaimedNothing(s: State, t: State, task: nat, id: string, capacity: nat)
    requires Sane(s, capacity) && Ordered(s) && Standing(s.inbox, id).None? && ClaimedBy(s, t, task, id)
    ensures Sane(t, capacity) && Ordered(t) && NoneOlder(s.inbox, id)
  {
  }

  lemma StandingClaimed(s: State, t: State, id: string, capacity: nat)
    requires Sane(s, capacity) && Ordered(s) && FreshUnder(AllKeys(s.inbox), s.claimed, id)
    requires Standing(s.inbox, id).Some? && t.inbox == C.Claimless(s.inbox, [id])
    requires t.claimed == s.claimed + [Standing(s.inbox, id).value.sequence]
    ensures Sane(t, capacity) && (Ordered(t) <==> NoneOlder(s.inbox, id))
  {
    var x := Standing(s.inbox, id).value;
    StandingHas(s.inbox, id);
    ClaimTakesTheStanding(s.inbox, id);
    R.ClaimMoves(s.inbox, [id], capacity);
    assert C.Named([id]) == {id};
    LeftInTurn(s.inbox, x);
    TakingKeepsOrder(Keys(s.inbox.nextTurn), Keys(t.inbox.nextTurn), s.claimed, x.sequence);
    BelowSnoc(s.claimed, x.sequence, t.inbox.nextSequence);
  }

  lemma ElsewhereKeepsOrder(s: State, op: R.Op, capacity: nat)
    requires Sane(s, capacity) && R.FromService(op)
    ensures Sane(Next(s, Elsewhere(op), capacity), capacity)
    ensures OrderInv(s, capacity) ==> OrderInv(Next(s, Elsewhere(op), capacity), capacity)
  {
    var inbox := R.Apply(s.inbox, op, capacity).0;
    OperationMayBecome(s.inbox, op, capacity);
    ChangedKeepsOrder(s, inbox, NewKey(s.inbox, op, capacity), capacity);
    ElsewhereIs(s, op, inbox, capacity);
  }

  lemma ChangedKeepsOrder(s: State, inbox: I.State, added: set<(string, int)>, capacity: nat)
    requires Sane(s, capacity) && MayBecome(s.inbox, inbox, added, capacity)
    ensures Sane(s.(inbox := inbox), capacity)
    ensures OrderInv(s, capacity) ==> OrderInv(s.(inbox := inbox), capacity)
  {
    ChangeKeepsOrder(s, s.(inbox := inbox), added, capacity);
  }

  lemma DropKeepsOrder(s: State, task: nat, capacity: nat)
    requires SingleFlight(s) && Sane(s, capacity) && Enabled(s, DropCandidate(task))
    ensures Sane(Next(s, DropCandidate(task), capacity), capacity)
    ensures OrderInv(s, capacity) ==> OrderInv(Next(s, DropCandidate(task), capacity), capacity)
  {
    var id := ChosenId(s, task);
    R.RemoveMoves(s.inbox, id, capacity);
    RemoveTurns(s.inbox, id);
    DroppedKeepsOrder(s, task, I.RemoveItem(s.inbox, id).0, capacity);
  }

  lemma DroppedKeepsOrder(s: State, task: nat, inbox: I.State, capacity: nat)
    requires SingleFlight(s) && Sane(s, capacity) && Live(s, task) && MayBecome(s.inbox, inbox, {}, capacity)
    ensures var t := Goto(s.(inbox := inbox), task, Leaving);
      Sane(t, capacity) && Candidates(t) && (Ordered(s) ==> Ordered(t))
  {
    var t := Goto(s.(inbox := inbox), task, Leaving);
    ChangeKeepsOrder(s, t, {}, capacity);
    OnlyTaskHasCandidate(s, t, task, Leaving);
  }

  lemma LookKeepsOrder(s: State, task: nat, capacity: nat)
    requires SingleFlight(s) && OrderInv(s, capacity) && Enabled(s, Look(task)) && s.inbox.nextTurn != []
    ensures OrderInv(Next(s, Look(task), capacity), capacity)
  {
    var c := s.inbox.nextTurn[0];
    assert c in s.inbox.nextTurn;
    assert (c.requestId, c.sequence) in Keys(s.inbox.nextTurn);
    R.OnePerNumber(s.inbox);
    forall k | k in AllKeys(s.inbox) && k.0 == c.requestId
      ensures AllBelow(s.claimed, k.1)
    {
      var x :| I.Holds(s.inbox, x) && (x.requestId, x.sequence) == k;
      assert x == c;
    }
  }

  /** Steps that touch neither the inbox nor the claims, and choose nothing. */
  predicate Moves(step: Step) {
    !step.Look? && !step.DropCandidate? && !step.ClaimCandidate? && !step.Elsewhere?
  }

  /** Whatever a task has chosen afterwards it had chosen before. */
  ghost predicate NoNewCandidate(s: State, t: State) {
    forall u :: u in t.tasks && CandidateOf(t.tasks[u]).Some? ==>
      u in s.tasks && CandidateOf(s.tasks[u]) == CandidateOf(t.tasks[u])
  }

  lemma PhaseChoosesNothing(s: State, step: Step)
    requires Enabled(s, step) && Moves(step) && MovesOn(step)
    ensures step.task in s.tasks
    ensures var phase := PhaseAfter(s, step);
      CandidateOf(phase).Some? ==> CandidateOf(phase) == CandidateOf(s.tasks[step.task])
  {
  }

  lemma MovingChoosesNothing(s: State, step: Step, capacity: nat)
    requires SingleFlight(s) && Enabled(s, step) && Moves(step)
    ensures var t := Next(s, step, capacity);
      t.inbox == s.inbox && t.claimed == s.claimed && NoNewCandidate(s, t)
  {
    if MovesOn(step) {
      PhaseChoosesNothing(s, step);
      GotoChoosesNothing(s, WorkOf(s, step), step.task, PhaseAfter(s, step));
    }
  }

  lemma GotoChoosesNothing(s: State, work: State, task: nat, phase: Phase)
    requires work.tasks == s.tasks && task in s.tasks
    requires CandidateOf(phase).Some? ==> CandidateOf(phase) == CandidateOf(s.tasks[task])
    ensures NoNewCandidate(s, Goto(work, task, phase))
  {
  }

  lemma MovingKeepsOrder(s: State, t: State)
    requires t.inbox == s.inbox && t.claimed == s.claimed && NoNewCandidate(s, t) && Candidates(s)
    ensures Candidates(t)
  {
    forall u | u in t.tasks && CandidateOf(t.tasks[u]).Some?
      ensures FreshUnder(AllKeys(t.inbox), t.claimed, CandidateOf(t.tasks[u]).value.requestId)
    {
      assert CandidateOf(s.tasks[u]).Some?;
    }
  }

  /** The claim that a step makes, if it makes one, finds no older item waiting. */
  ghost predicate ClaimsTheOldest(s: State, step: Step) {
    step.ClaimCandidate? && step.task in s.tasks && s.tasks[step.task].Claiming? ==>
      NoneOlder(s.inbox, ChosenId(s, step.task))
  }

  lemma StepKeepsOrderIff(s: State, step: Step, capacity: nat)
    requires SingleFlight(s) && OrderInv(s, capacity) && Enabled(s, step)
    ensures Sane(Next(s, step, capacity), capacity)
    ensures Ordered(Next(s, step, capacity)) <==> ClaimsTheOldest(s, step)
    ensures Ordered(Next(s, step, capacity)) ==> OrderInv(Next(s, step, capacity), capacity)
  {
    if Moves(step) {
      MovingChoosesNothing(s, step, capacity);
      MovingKeepsOrder(s, Next(s, step, capacity));
    } else {
      match step {
        case Look(task) =>
          if s.inbox.nextTurn == [] {
            OnlyTaskHasCandidate(s, Next(s, step, capacity), task, Leaving);
          } else {
            LookKeepsOrder(s, task, capacity);
          }
        case DropCandidate(task) => DropKeepsOrder(s, task, capacity);
        case ClaimCandidate(task) => ClaimKeepsOrderIff(s, task, capacity);
        case Elsewhere(op) => ElsewhereKeepsOrder(s, op, capacity);
      }
    }
  }

  // ---------------------------------------------------------------- the order, over runs

  /** Every state of the run is in order. */
  ghost predicate InOrder(steps: seq<Step>, capacity: nat)
    requires Run(steps, capacity).Some?
  {
    Ordered(Run(steps, capacity).value) && (steps == [] || InOrder(steps[..|steps| - 1], capacity))
  }

  /** Every claim of the run finds no older item waiting. */
  ghost predicate AllClaimTheOldest(steps: seq<Step>, capacity: nat)
    requires Run(steps, capacity).Some?
  {
    steps == []
    || (var front := steps[..|steps| - 1];
        AllClaimTheOldest(front, capacity) && ClaimsTheOldest(Run(front, capacity).value, steps[|steps| - 1]))
  }

  lemma {:induction false} InOrderKeeps(steps: seq<Step>, capacity: nat)
    requires Run(steps, capacity).Some? && InOrder(steps, capacity)
    ensures OrderInv(Run(steps, capacity).value, capacity)
  {
    if steps != [] {
      var front := steps[..|steps| - 1];
      InOrderKeeps(front, capacity);
      EveryRunIsSingleFlight(front, capacity);
      StepKeepsOrderIff(Run(front, capacity).value, steps[|steps| - 1], capacity);
    }
  }

  /** In every state reached in order a claim step keeps the order if and only if no item waiting for a
      turn is older than the one that stands under the candidate's id. */
  lemma NextClaimKeepsOrderIff(steps: seq<Step>, task: nat, capacity: nat)
    requires Run(steps, capacity).Some? && InOrder(steps, capacity)
    requires Enabled(Run(steps, capacity).value, ClaimCandidate(task))
    ensures var s := Run(steps, capacity).value;
      Ordered(Next(s, ClaimCandidate(task), capacity)) <==> NoneOlder(s.inbox, ChosenId(s, task))
  {
    InOrderKeeps(steps, capacity);
    EveryRunIsSingleFlight(steps, capacity);
    ClaimKeepsOrderIff(Run(steps, capacity).value, task, capacity);
  }

  /** A run keeps the order of the queue throughout if and only if every one of its claims finds no
      older item waiting. */
  lemma {:induction false} InOrderIff(steps: seq<Step>, capacity: nat)
    requires Run(steps, capacity).Some?
    ensures InOrder(steps, capacity) <==> AllClaimTheOldest(steps, capacity)
  {
    if steps != [] {
      var front := steps[..|steps| - 1];
      InOrderIff(front, capacity);
      if InOrder(front, capacity) {
        InOrderKeeps(front, capacity);
        EveryRunIsSingleFlight(front, capacity);
        StepKeepsOrderIff(Run(front, capacity).value, steps[|steps| - 1], capacity);
      }
    }
  }

  // ---------------------------------------------------------------- without reuse of a held id

  /** A dispatch has chosen an item under the id and not finished with it. */
  ghost predicate HeldByDispatch(s: State, id: string) {
    exists t :: t in s.tasks && CandidateOf(s.tasks[t]).Some? && CandidateOf(s.tasks[t]).value.requestId == id
  }

  /** No item is admitted under an id that a dispatch holds. */
  ghost predicate Steady(s: State, step: Step, capacity: nat) {
    step.Elsewhere? && Admits(s.inbox, step.op, capacity) ==> !HeldByDispatch(s, step.op.item.requestId)
  }

  ghost predicate AllSteady(steps: seq<Step>, capacity: nat)
    requires Run(steps, capacity).Some?
  {
    steps == []
    || (var front := steps[..|steps| - 1];
        AllSteady(front, capacity) && Steady(Run(front, capacity).value, steps[|steps| - 1], capacity))
  }

  /** A chosen item is the oldest of the turn queue as long as it is in it, and its id stands for it
      wherever it waits. */
  ghost predicate GoodCandidate(turns: set<(string, int)>, all: set<(string, int)>, nextSequence: int, c: I.Item) {
    && c.sequence < nextSequence
    && (forall k :: k in turns ==> k.1 > c.sequence || k == (c.requestId, c.sequence))
    && (forall k :: k in all && k.0 == c.requestId ==> k.1 == c.sequence)
  }

  ghost predicate GoodCandidates(s: State) {
    forall t :: t in s.tasks && CandidateOf(s.tasks[t]).Some? ==>
      GoodCandidate(Keys(s.inbox.nextTurn), AllKeys(s.inbox), s.inbox.nextSequence, CandidateOf(s.tasks[t]).value)
  }

  lemma GoodIsOldest(inbox: I.State, c: I.Item)
    requires GoodCandidate(Keys(inbox.nextTurn), AllKeys(inbox), inbox.nextSequence, c)
    ensures NoneOlder(inbox, c.requestId)
  {
    if Standing(inbox, c.requestId).Some? {
      StandingHas(inbox, c.requestId);
    }
  }

  lemma GoodStays(s: I.State, inbox: I.State, added: set<(string, int)>, c: I.Item, capacity: nat)
    requires GoodCandidate(Keys(s.nextTurn), AllKeys(s), s.nextSequence, c) && MayBecome(s, inbox, added, capacity)
    requires forall k :: k in added ==> k.0 != c.requestId
    ensures GoodCandidate(Keys(inbox.nextTurn), AllKeys(inbox), inbox.nextSequence, c)
  {
  }

  lemma ElsewhereKeepsGood(s: State, op: R.Op, inbox: I.State, capacity: nat)
    requires GoodCandidates(s) && MayBecome(s.inbox, inbox, NewKey(s.inbox, op, capacity), capacity)
    requires Steady(s, Elsewhere(op), capacity)
    ensures GoodCandidates(s.(inbox := inbox))
  {
    forall t | t in s.tasks && CandidateOf(s.tasks[t]).Some?
      ensures GoodCandidate(Keys(inbox.nextTurn), AllKeys(inbox), inbox.nextSequence, CandidateOf(s.tasks[t]).value)
    {
      GoodStays(s.inbox, inbox, NewKey(s.inbox, op, capacity), CandidateOf(s.tasks[t]).value, capacity);
    }
  }

  lemma LookIsGood(inbox: I.State, capacity: nat)
    requires R.Sound(inbox, capacity) && inbox.nextTurn != []
    ensures GoodCandidate(Keys(inbox.nextTurn), AllKeys(inbox), inbox.nextSequence, inbox.nextTurn[0])
  {
    var c := inbox.nextTurn[0];
    I.ValidatesConsistent(inbox);
    R.OnePerNumber(inbox);
    assert I.Holds(inbox, c);
    forall k | k in Keys(inbox.nextTurn)
      ensures k.1 > c.sequence || k == (c.requestId, c.sequence)
    {
      var x :| x in inbox.nextTurn && (x.requestId, x.sequence) == k;
      var j :| 0 <= j < |inbox.nextTurn| && inbox.nextTurn[j] == x;
    }
    forall k | k in AllKeys(inbox) && k.0 == c.requestId
      ensures k.1 == c.sequence
    {
      var x :| I.Holds(inbox, x) && (x.requestId, x.sequence) == k;
      assert x == c;
    }
  }

  lemma LookKeepsGood(s: State, task: nat, capacity: nat)
    requires SingleFlight(s) && R.Sound(s.inbox, capacity) && At(s, task, Looking) && s.inbox.nextTurn != []
    ensures GoodCandidates(Goto(s, task, Deciding(s.inbox.nextTurn[0])))
  {
    var t := Goto(s, task, Deciding(s.inbox.nextTurn[0]));
    LookIsGood(s.inbox, capacity);
    assert Live(s, task);
    forall u | u in t.tasks && u != task
      ensures CandidateOf(t.tasks[u]).None?
    {
      assert !Live(s, u);
    }
  }

  lemma MovingKeepsGood(s: State, t: State)
    requires t.inbox == s.inbox && NoNewCandidate(s, t) && GoodCandidates(s)
    ensures GoodCandidates(t)
  {
    forall u | u in t.tasks && CandidateOf(t.tasks[u]).Some?
      ensures GoodCandidate(Keys(t.inbox.nextTurn), AllKeys(t.inbox), t.inbox.nextSequence,
                CandidateOf(t.tasks[u]).value)
    {
      assert CandidateOf(s.tasks[u]).Some?;
    }
  }

  lemma OnlyTaskIsGood(s: State, t: State, task: nat, phase: Phase)
    requires SingleFlight(s) && Live(s, task) && t.tasks == s.tasks[task := phase] && CandidateOf(phase).None?
    ensures GoodCandidates(t)
  {
    forall u | u in t.tasks
      ensures CandidateOf(t.tasks[u]).None?
    {
      if u != task {
        assert !Live(s, u);
      }
    }
  }

  lemma StepKeepsGood(s: State, step: Step, capacity: nat)
    requires SingleFlight(s) && OrderInv(s, capacity) && GoodCandidates(s) && Enabled(s, step)
    requires Steady(s, step, capacity)
    ensures GoodCandidates(Next(s, step, capacity)) && ClaimsTheOldest(s, step)
  {
    if Moves(step) {
      MovingChoosesNothing(s, step, capacity);
      MovingKeepsGood(s, Next(s, step, capacity));
    } else {
      match step {
        case Look(task) =>
          if s.inbox.nextTurn == [] {
            OnlyTaskIsGood(s, Next(s, step, capacity), task, Leaving);
          } else {
            LookKeepsGood(s, task, capacity);
          }
        case DropCandidate(task) => OnlyTaskIsGood(s, Next(s, step, capacity), task, Leaving);
        case ClaimCandidate(task) => ClaimKeepsGood(s, task, capacity);
        case Elsewhere(op) =>
          OperationMayBecome(s.inbox, op, capacity);
          ElsewhereKeepsGood(s, op, R.Apply(s.inbox, op, capacity).0, capacity);
      }
    }
  }

  lemma ClaimKeepsGood(s: State, task: nat, capacity: nat)
    requires SingleFlight(s) && R.Sound(s.inbox, capacity) && GoodCandidates(s) && Enabled(s, ClaimCandidate(task))
    ensures GoodCandidates(Next(s, ClaimCandidate(task), capacity))
    ensures NoneOlder(s.inbox, ChosenId(s, task))
  {
    var c := s.tasks[task].candidate;
    assert CandidateOf(s.tasks[task]) == Some(c);
    GoodIsOldest(s.inbox, c);
    ClaimStepIs(s, task, capacity);
    ClaimedIsGood(s, Next(s, ClaimCandidate(task), capacity), task, c.requestId);
  }

  lemma ClaimedIsGood(s: State, t: State, task: nat, id: string)
    requires SingleFlight(s) && Live(s, task) && ClaimedBy(s, t, task, id)
    ensures GoodCandidates(t)
  {
    OnlyTaskIsGood(s, t, task, if Standing(s.inbox, id).None? then Leaving else Delivering);
  }

  lemma {:induction false} SteadyRunsKeepGood(steps: seq<Step>, capacity: nat)
    requires Run(steps, capacity).Some? && AllSteady(steps, capacity)
    ensures GoodCandidates(Run(steps, capacity).value) && InOrder(steps, capacity)
  {
    if steps != [] {
      var front, last := steps[..|steps| - 1], steps[|steps| - 1];
      var s := Run(front, capacity).value;
      SteadyRunsKeepGood(front, capacity);
      InOrderKeeps(front, capacity);
      EveryRunIsSingleFlight(front, capacity);
      StepKeepsGood(s, last, capacity);
      StepKeepsOrderIff(s, last, capacity);
    }
  }

  /** Successive dispatches claim strictly increasing sequence numbers, with every operation of the
      service going on between any two of their steps: admissions under new ids, under ids that are
      waiting, refused or used before, removals, edits, promotions and claims. The one thing that may
      not happen is that an item is admitted under an id while a dispatch holds it. */
  lemma ClaimsIncrease(steps: seq<Step>, capacity: nat)
    requires Run(steps, capacity).Some? && AllSteady(steps, capacity)
    ensures InOrder(steps, capacity) && Increasing(Run(steps, capacity).value.claimed)
  {
    SteadyRunsKeepGood(steps, capacity);
  }

  // ---------------------------------------------------------------- reuse of a held id breaks the order

  lemma Reach(steps: seq<Step>, s: State, step: Step, t: State, capacity: nat)
    requires Run(steps, capacity) == Some(s) && Enabled(s, step) && Next(s, step, capacity) == t
    ensures Run(steps + [step], capacity) == Some(t)
  {
    assert (steps + [step])[..|steps|] == steps;
  }

  lemma AdmitToEmpty(s: I.State, x: I.Item, capacity: nat)
    requires s.nextTurn == [] && s.nextStep == [] && x.sequence <= 0 && s.nextSequence >= 1 && capacity >= 1
    ensures R.Apply(s, R.AdmitOp(x, I.NextTurn, false), capacity).0
         == I.State(s.revision + 1, s.nextSequence + 1, [x.(sequence := s.nextSequence)], [])
  {
    assert [] + [x.(sequence := s.nextSequence)] == [x.(sequence := s.nextSequence)];
  }

  lemma AdmitBehind(s: I.State, y: I.Item, x: I.Item, capacity: nat)
    requires s.nextTurn == [y] && s.nextStep == [] && x.sequence <= 0 && s.nextSequence >= 1 && capacity >= 2
    requires y.requestId != x.requestId
    ensures R.Apply(s, R.AdmitOp(x, I.NextTurn, false), capacity).0
         == I.State(s.revision + 1, s.nextSequence + 1, [y, x.(sequence := s.nextSequence)], [])
  {
    assert [y] + [x.(sequence := s.nextSequence)] == [y, x.(sequence := s.nextSequence)];
    assert I.Find(s, x.requestId) == None;
  }

  lemma RemoveTheOnly(s: I.State, x: I.Item, capacity: nat)
    requires s.nextTurn == [x] && s.nextStep == []
    ensures R.Apply(s, R.RemoveOp(x.requestId), capacity).0 == I.State(s.revision + 1, s.nextSequence, [], [])
  {
    assert I.Find(s, x.requestId) == Some(I.Location(I.NextTurn, 0));
    assert I.RemoveAt([x], 0) == [];
  }

  /** Both items are new to the inbox, under different ids. */
  ghost predicate TwoInputs(a: I.Item, b: I.Item) {
    a.sequence <= 0 && b.sequence <= 0 && a.requestId != b.requestId && R.Persistable(a) && R.Persistable(b)
  }

  /** A dispatch has chosen `a`, the first item ever admitted. */
  lemma FirstChosen(a: I.Item, capacity: nat) returns (steps: seq<Step>)
    requires a.sequence <= 0 && R.Persistable(a) && capacity >= 2
    ensures var first := a.(sequence := 1);
      Run(steps, capacity)
        == Some(State(I.State(1, 2, [first], []), false, false, Some(0), map[0 := Claiming(first)], 1, []))
  {
    var first := a.(sequence := 1);
    var admitted := Start.(inbox := I.State(1, 2, [first], []));
    var admit := Elsewhere(R.AdmitOp(a, I.NextTurn, false));
    AdmitToEmpty(I.Empty, a, capacity);
    ElsewhereIs(Start, R.AdmitOp(a, I.NextTurn, false), admitted.inbox, capacity);
    Reach([], Start, admit, admitted, capacity);
    steps := NextTask([] + [admit], admitted, first, capacity);
    assert map[][0 := Claiming(first)] == map[0 := Claiming(first)];
  }

  lemma ElsewhereIs(s: State, op: R.Op, inbox: I.State, capacity: nat)
    requires R.FromService(op) && R.Apply(s.inbox, op, capacity).0 == inbox
    ensures Enabled(s, Elsewhere(op)) && Next(s, Elsewhere(op), capacity) == s.(inbox := inbox)
  {
  }

  /** A created task without a wish to wait begins, looks and decides to claim the oldest item. */
  lemma ChooseFirst(before: seq<Step>, s: State, task: nat, x: I.Item, capacity: nat) returns (steps: seq<Step>)
    requires Run(before, capacity) == Some(s) && At(s, task, Created) && !s.waitForIdle
    requires s.inbox.nextTurn != [] && s.inbox.nextTurn[0] == x
    ensures Run(steps, capacity) == Some(Goto(s, task, Claiming(x)).(requested := false))
  {
    var s1 := Goto(s, task, Looking).(requested := false);
    Reach(before, s, Begin(task, true), s1, capacity);
    steps := before + [Begin(task, true)];
    var s2 := Goto(s, task, Deciding(x)).(requested := false);
    assert s1.tasks[task := Deciding(x)] == s2.tasks;
    Reach(steps, s1, Look(task), s2, capacity);
    steps := steps + [Look(task)];
    var s3 := Goto(s, task, Claiming(x)).(requested := false);
    assert s2.tasks[task := Claiming(x)] == s3.tasks;
    Reach(steps, s2, Decide(task, Enter), s3, capacity);
    steps := steps + [Decide(task, Enter)];
  }

  /** Meanwhile `a` is removed, `b` admitted, and `a` admitted again. */
  lemma Readmitted(before: seq<Step>, s: State, a: I.Item, b: I.Item, capacity: nat) returns (steps: seq<Step>)
    requires TwoInputs(a, b) && capacity >= 2
    requires Run(before, capacity) == Some(s) && s.inbox == I.State(1, 2, [a.(sequence := 1)], [])
    ensures Run(steps, capacity)
         == Some(s.(inbox := I.State(4, 4, [b.(sequence := 2), a.(sequence := 3)], [])))
  {
    var s1 := s.(inbox := I.State(2, 2, [], []));
    RemoveTheOnly(s.inbox, a.(sequence := 1), capacity);
    ElsewhereIs(s, R.RemoveOp(a.requestId), s1.inbox, capacity);
    Reach(before, s, Elsewhere(R.RemoveOp(a.requestId)), s1, capacity);
    steps := before + [Elsewhere(R.RemoveOp(a.requestId))];
    var s2 := s.(inbox := I.State(3, 3, [b.(sequence := 2)], []));
    AdmitToEmpty(s1.inbox, b, capacity);
    ElsewhereIs(s1, R.AdmitOp(b, I.NextTurn, false), s2.inbox, capacity);
    Reach(steps, s1, Elsewhere(R.AdmitOp(b, I.NextTurn, false)), s2, capacity);
    steps := steps + [Elsewhere(R.AdmitOp(b, I.NextTurn, false))];
    var s3 := s.(inbox := I.State(4, 4, [b.(sequence := 2), a.(sequence := 3)], []));
    AdmitBehind(s2.inbox, b.(sequence := 2), a, capacity);
    ElsewhereIs(s2, R.AdmitOp(a, I.NextTurn, false), s3.inbox, capacity);
    Reach(steps, s2, Elsewhere(R.AdmitOp(a, I.NextTurn, false)), s3, capacity);
    steps := steps + [Elsewhere(R.AdmitOp(a, I.NextTurn, false))];
  }

  lemma StandsSecond(inbox: I.State, y: I.Item, x: I.Item)
    requires inbox.nextTurn == [y, x] && inbox.nextStep == []
    requires y.requestId != x.requestId && y.sequence < x.sequence
    ensures I.Validates(inbox) && Standing(inbox, x.requestId) == Some(x)
    ensures C.Claimless(inbox, [x.requestId]) == I.State(inbox.revision + 1, inbox.nextSequence, [y], [])
  {
    assert I.All(inbox) == [y, x];
    assert [y, x][1..] == [x] && I.IndexOf([x], x.requestId) == 0 && I.IndexOf([y, x], x.requestId) == 1;
    assert C.Named([x.requestId]) == {x.requestId};
    assert [y, x][..1] == [y] && [y][..0] == [];
    assert I.Without([y], {x.requestId}) == [y];
  }

  lemma StandsAlone(inbox: I.State, x: I.Item)
    requires inbox.nextTurn == [x] && inbox.nextStep == []
    ensures I.Validates(inbox) && Standing(inbox, x.requestId) == Some(x)
    ensures C.Claimless(inbox, [x.requestId]) == I.State(inbox.revision + 1, inbox.nextSequence, [], [])
  {
    assert I.All(inbox) == [x];
    assert C.Named([x.requestId]) == {x.requestId};
    assert [x][..0] == [];
  }

  lemma FinishClaim(before: seq<Step>, s: State, task: nat, x: I.Item, left: I.State, capacity: nat)
    returns (steps: seq<Step>)
    requires Run(before, capacity) == Some(s) && task in s.tasks && s.tasks[task].Claiming?
    requires s.entry == Some(task) && !s.requested
    requires I.Validates(s.inbox) && Standing(s.inbox, ChosenId(s, task)) == Some(x)
    requires left == C.Claimless(s.inbox, [ChosenId(s, task)])
    ensures Run(steps, capacity)
         == Some(s.(inbox := left, claimed := s.claimed + [x.sequence], entry := None, tasks := s.tasks[task := Done]))
  {
    var s1 := Next(s, ClaimCandidate(task), capacity);
    ClaimStepIs(s, task, capacity);
    Reach(before, s, ClaimCandidate(task), s1, capacity);
    steps := LeaveClaim(before + [ClaimCandidate(task)], s, s1, task, x, left, capacity);
  }

  lemma LeaveClaim(before: seq<Step>, s: State, t: State, task: nat, x: I.Item, left: I.State, capacity: nat)
    returns (steps: seq<Step>)
    requires Run(before, capacity) == Some(t) && ClaimedBy(s, t, task, ChosenId(s, task))
    requires s.entry == Some(task) && !s.requested
    requires Standing(s.inbox, ChosenId(s, task)) == Some(x) && left == C.Claimless(s.inbox, [ChosenId(s, task)])
    ensures Run(steps, capacity)
         == Some(s.(inbox := left, claimed := s.claimed + [x.sequence], entry := None, tasks := s.tasks[task := Done]))
  {
    steps := LeaveTask(before, t, task, capacity);
    assert t.tasks[task := Done] == s.tasks[task := Done];
  }

  lemma LeaveTask(before: seq<Step>, s: State, task: nat, capacity: nat) returns (steps: seq<Step>)
    requires Run(before, capacity) == Some(s) && At(s, task, Delivering) && s.entry == Some(task) && !s.requested
    ensures Run(steps, capacity) == Some(s.(entry := None, tasks := s.tasks[task := Done]))
  {
    var s1 := Goto(s, task, Leaving);
    Reach(before, s, Delivered(task), s1, capacity);
    steps := before + [Delivered(task)];
    var s2 := s.(entry := None, tasks := s.tasks[task := Done]);
    assert s1.tasks[task := Done] == s2.tasks;
    Reach(steps, s1, Finish(task), s2, capacity);
    steps := steps + [Finish(task)];
  }

  lemma NextTask(before: seq<Step>, s: State, x: I.Item, capacity: nat) returns (steps: seq<Step>)
    requires Run(before, capacity) == Some(s) && s.entry == None && !s.waitForIdle && s.nextTask !in s.tasks
    requires s.inbox.nextTurn != [] && s.inbox.nextTurn[0] == x
    ensures Run(steps, capacity)
         == Some(s.(requested := false, entry := Some(s.nextTask), nextTask := s.nextTask + 1,
                    tasks := s.tasks[s.nextTask := Claiming(x)]))
  {
    var s1 := s.(requested := true, entry := Some(s.nextTask), nextTask := s.nextTask + 1,
                 tasks := s.tasks[s.nextTask := Created]);
    Reach(before, s, Trigger(false), s1, capacity);
    steps := ChooseFirst(before + [Trigger(false)], s1, s.nextTask, x, capacity);
    assert s1.tasks[s.nextTask := Claiming(x)] == s.tasks[s.nextTask := Claiming(x)];
  }

  /** The next dispatch claims the one item that is left. */
  lemma OlderClaimed(before: seq<Step>, s: State, x: I.Item, capacity: nat) returns (steps: seq<Step>)
    requires Run(before, capacity) == Some(s)
    requires s == State(I.State(5, 4, [x], []), false, false, None, map[0 := Done], 1, [3]) && x.sequence == 2
    ensures Run(steps, capacity).Some? && Run(steps, capacity).value.claimed == [3] + [2]
  {
    steps := NextTask(before, s, x, capacity);
    StandsAlone(s.inbox, x);
    var t := State(s.inbox, false, false, Some(1), s.tasks[1 := Claiming(x)], 2, [3]);
    steps := FinishClaim(steps, t, 1, x, I.State(6, 4, [], []), capacity);
  }

  lemma NotIncreasing(steps: seq<Step>, capacity: nat)
    requires Run(steps, capacity).Some? && Run(steps, capacity).value.claimed == [3] + [2]
    ensures Run(steps, capacity).value.claimed == [3, 2] && !InOrder(steps, capacity)
  {
    var claimed := Run(steps, capacity).value.claimed;
    assert claimed[0] == 3 && claimed[1] == 2;
  }
  /** The id under which an item was chosen must keep standing for it. In this run the chosen item is
      removed and its id admitted again, behind a new item, before the claim: the claim takes the newer
      item, and the next dispatch claims the older one after it. */
  lemma ReuseBreaksTheOrder(a: I.Item, b: I.Item, capacity: nat) returns (steps: seq<Step>)
    requires TwoInputs(a, b) && capacity >= 2
    ensures Run(steps, capacity).Some? && Run(steps, capacity).value.claimed == [3, 2]
    ensures !InOrder(steps, capacity)
  {
    var first, older, again := a.(sequence := 1), b.(sequence := 2), a.(sequence := 3);
    steps := FirstChosen(a, capacity);
    var s1 := State(I.State(1, 2, [first], []), false, false, Some(0), map[0 := Claiming(first)], 1, []);
    steps := Readmitted(steps, s1, a, b, capacity);
    var s2 := s1.(inbox := I.State(4, 4, [older, again], []));
    StandsSecond(s2.inbox, older, again);
    steps := FinishClaim(steps, s2, 0, again, I.State(5, 4, [older], []), capacity);
    var s3 := State(I.State(5, 4, [older], []), false, false, None, map[0 := Done], 1, [3]);
    assert s2.tasks[0 := Done] == map[0 := Done] && [] + [3] == [3];
    steps := OlderClaimed(steps, s3, older, capacity);
    NotIncreasing(steps, capacity);
  }
}
