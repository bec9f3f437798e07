/** The ReAct loop: `decide`, the loop of reasoning, acting and exiting, and its end states.

    The mutable `RunState` is proved against the value semantics `Decision` and `Turn`. When each action
    is decided is said by `DecidedAs`, and the calls a model asks for are acted on next
    (`RequestedCallsAreActedOn`). Whatever the
    model, the tools and the stop hook answer, the loop makes at most `max_iterations + 3` model calls
    (`CallsAreBounded`), ends after a bounded number of turns (`LoopEnds`), the fourth empty response
    of a run is exactly what ends it with the empty-response error (`FourthEmptyResponseEnds`), and
    a run is left without a final status only when a tool asked for permission (`LeftPausedIffAsked`). */
module React {
  import opened Prelude

  datatype Status = Idle | Running | Paused | Completed | Errored | Cancelled

  datatype Reason = ReasonCompleted | Interrupted | ReasonError | ExceedMaxIters

  datatype LlmError = LlmError(code: string, message: string)

  datatype TurnResult = TurnResult(text: string, toolCalls: seq<string>, error: Option<LlmError>)

  datatype Action =
    | Reasoning(finalizing: bool)
    | Acting(toolCalls: seq<string>)
    | Exit(reason: Reason, error: string, code: string)

  const MAX_EMPTY_RESPONSE_RETRIES: nat := 2
  const EMPTY_FINAL_RESPONSE_MESSAGE := "模型多次重试后仍未生成可见的最终文本回复。"

  /** The fields of a run that the loop reads or writes. */
  datatype Run = Run(
    status: Status,
    iteration: nat,
    doneReason: Option<Reason>,
    error: string,
    code: string,
    emptyRetries: nat,
    inFinalization: bool,
    continuations: int)

  /** What `runtime_context` fixes for the whole run. */
  datatype Limits = Limits(maxIterations: Option<int>, maxContinuations: int)

  /** Nothing is left of the text once surrounding whitespace is stripped. */
  predicate Blank(text: string) {
    forall k :: 0 <= k < |text| ==> IsSpace(text[k])
  }

  predicate Empty(prev: TurnResult) {
    prev.error.None? && prev.toolCalls == [] && Blank(prev.text)
  }

  function ErrorText(e: LlmError): string {
    "[" + e.code + "] " + e.message
  }

  // ---------------------------------------------------------------- value semantics

  function Decision(r: Run, limits: Limits, prev: Option<TurnResult>): (Action, Run) {
    match prev
    case Some(p) =>
      if p.error.Some? then (Exit(ReasonError, ErrorText(p.error.value), p.error.value.code), r)
      else if p.toolCalls != [] then (Acting(p.toolCalls), r)
      else if !Blank(p.text) then (Exit(ReasonCompleted, "", ""), r)
      else if r.inFinalization then (Exit(ReasonError, EMPTY_FINAL_RESPONSE_MESSAGE, "empty_response"), r)
      else if r.emptyRetries < MAX_EMPTY_RESPONSE_RETRIES then
        (Reasoning(false), r.(emptyRetries := r.emptyRetries + 1))
      else (Reasoning(true), r.(inFinalization := true))
    case None =>
      if limits.maxIterations.Some? && r.iteration >= limits.maxIterations.value then
        (Exit(ExceedMaxIters, "", ""), r)
      else (Reasoning(false), r)
  }

  /** How one executor call ends. */
  datatype Called<T> = Answer(value: T) | Stopped | Raised

  /** The surroundings' answers during one turn of the loop; only the one asked for is used. */
  datatype Reply = Reply(
    reasoning: Called<TurnResult>,
    asksPermission: Called<bool>,
    continueTurn: Called<bool>,
    cancelling: bool)

  /** The loop between two turns; `raised` is set when an exception left it. */
  datatype Loop = Loop(run: Run, prev: Option<TurnResult>, going: bool, raised: bool)

  function StatusOf(reason: Reason): Status {
    match reason
    case Interrupted => Cancelled
    case ReasonError => Errored
    case ReasonCompleted => Completed
    case ExceedMaxIters => Completed
  }

  function Finalized(r: Run, reason: Reason, error: string, code: string): Run {
    r.(doneReason := Some(reason), status := StatusOf(reason),
       error := if error == "" then r.error else error,
       code := if code == "" then r.code else code)
  }

  function Interrupt(l: Loop): Loop {
    l.(run := Finalized(l.run, Interrupted, "", ""), going := false)
  }

  function Fail(l: Loop): Loop {
    l.(run := Finalized(l.run, ReasonError, "", ""), going := false, raised := true)
  }

  function MayContinue(r: Run, limits: Limits, reply: Reply): bool {
    !reply.cancelling && r.continuations < limits.maxContinuations
  }

  /** One turn of the loop. */
  function Turn(l: Loop, limits: Limits, reply: Reply): Loop {
    if !l.going then l
    else
      var (action, run) := Decision(l.run, limits, l.prev);
      match action
      case Reasoning(_) =>
        var begun := l.(run := run.(iteration := run.iteration + 1), prev := None);
        (match reply.reasoning
         case Answer(result) => begun.(prev := Some(result))
         case Stopped => Interrupt(begun)
         case Raised => Fail(begun))
      case Acting(_) =>
        var begun := l.(run := run);
        (match reply.asksPermission
         case Answer(asked) =>
           if asked then begun.(run := run.(status := Paused), going := false) else begun.(prev := None)
         case Stopped => Interrupt(begun)
         case Raised => Fail(begun))
      case Exit(reason, error, code) =>
        if reason == ReasonCompleted then
          (match reply.continueTurn
           case Answer(wanted) =>
             if wanted && MayContinue(run, limits, reply) then
               l.(run := run.(continuations := run.continuations + 1), prev := None)
             else l.(run := Finalized(run, reason, error, code), going := false)
           case Stopped => Interrupt(l)
           case Raised => Fail(l))
        else l.(run := Finalized(run, reason, error, code), going := false)
  }

  function Turns(l: Loop, limits: Limits, replies: seq<Reply>): Loop {
    if replies == [] then l
    else Turn(Turns(l, limits, replies[..|replies| - 1]), limits, replies[|replies| - 1])
  }

  /** A new reply: every field reset, the continuation count taken from the runtime context. */
  function Fresh(continuations: int): Run {
    Run(Running, 0, None, "", "", 0, false, continuations)
  }

  function Begin(continuations: int): Loop {
    Loop(Fresh(continuations), None, true, false)
  }

  // ---------------------------------------------------------------- what is decided and what follows

  /** The model answered with nothing: no error, no call, no visible text. */
  predicate AnsweredNothing(prev: Option<TurnResult>) {
    prev.Some? && prev.value.error.None? && |prev.value.toolCalls| == 0
    && forall k :: 0 <= k < |prev.value.text| ==> IsSpace(prev.value.text[k])
  }

  predicate OutOfIterations(r: Run, limits: Limits) {
    limits.maxIterations.Some? && r.iteration >= limits.maxIterations.value
  }

  /** When each action is taken, and with what. */
  predicate DecidedAs(action: Action, r: Run, r': Run, limits: Limits, prev: Option<TurnResult>) {
    && (action.Acting? <==> prev.Some? && prev.value.error.None? && |prev.value.toolCalls| > 0)
    && (action.Acting? ==> prev.Some? && action.toolCalls == prev.value.toolCalls)
    && (prev.Some? && prev.value.error.Some? ==>
          var e := prev.value.error.value;
          action == Exit(ReasonError, "[" + e.code + "] " + e.message, e.code))
    && (action.Exit? && action.reason == ReasonError <==>
          prev.Some? && (prev.value.error.Some? || (AnsweredNothing(prev) && r.inFinalization)))
    && (AnsweredNothing(prev) && r.inFinalization ==>
          action == Exit(ReasonError, EMPTY_FINAL_RESPONSE_MESSAGE, "empty_response"))
    && (action == Exit(ReasonCompleted, "", "") <==>
          prev.Some? && prev.value.error.None? && |prev.value.toolCalls| == 0 && !AnsweredNothing(prev))
    && (action == Exit(ExceedMaxIters, "", "") <==> prev.None? && OutOfIterations(r, limits))
    && (action == Reasoning(true) <==> AnsweredNothing(prev) && !r.inFinalization && r.emptyRetries >= 2)
    && (action == Reasoning(false) <==>
          || (prev.None? && !OutOfIterations(r, limits))
          || (AnsweredNothing(prev) && !r.inFinalization && r.emptyRetries < 2))
    && (action == Reasoning(true) <==> !r.inFinalization && r'.inFinalization)
    && r' == r.(inFinalization := r.inFinalization || action == Reasoning(true),
                emptyRetries := r.emptyRetries + (if AnsweredNothing(prev) && action == Reasoning(false) then 1 else 0))
  }

  lemma DecisionIs(r: Run, limits: Limits, prev: Option<TurnResult>)
    ensures DecidedAs(Decision(r, limits, prev).0, r, Decision(r, limits, prev).1, limits, prev)
  {
  }

  /** The loop goes on with the model's answer, or with nothing. */
  predicate GoesOn(l: Loop, l': Loop, prev: Option<TurnResult>) {
    l'.going && !l'.raised && l'.prev == prev && l'.run.status == l.run.status && l'.run.doneReason == l.run.doneReason
  }

  predicate EndsIn(l': Loop, status: Status, reason: Option<Reason>, raised: bool) {
    !l'.going && l'.run.status == status && l'.run.doneReason == reason && l'.raised == raised
  }

  /** How a turn ends, by what its executor answers. */
  lemma ReasoningEnds(l: Loop, limits: Limits, reply: Reply)
    requires l.going && !l.raised && Decision(l.run, limits, l.prev).0.Reasoning?
    ensures var l' := Turn(l, limits, reply);
      && l'.run.iteration == l.run.iteration + 1
      && match reply.reasoning
         case Answer(result) => GoesOn(l, l', Some(result))
         case Stopped => EndsIn(l', Cancelled, Some(Interrupted), false)
         case Raised => EndsIn(l', Errored, Some(ReasonError), true)
  {
  }

  lemma ActingEnds(l: Loop, limits: Limits, reply: Reply)
    requires l.going && !l.raised && Decision(l.run, limits, l.prev).0.Acting?
    ensures var l' := Turn(l, limits, reply);
      && l'.run.iteration == l.run.iteration
      && match reply.asksPermission
         case Answer(asked) =>
           if asked then EndsIn(l', Paused, l.run.doneReason, false) else GoesOn(l, l', None)
         case Stopped => EndsIn(l', Cancelled, Some(Interrupted), false)
         case Raised => EndsIn(l', Errored, Some(ReasonError), true)
  {
  }

  lemma ExitEnds(l: Loop, limits: Limits, reply: Reply)
    requires l.going && !l.raised && Decision(l.run, limits, l.prev).0.Exit?
    ensures var l', exit := Turn(l, limits, reply), Decision(l.run, limits, l.prev).0;
      && l'.run.iteration == l.run.iteration
      && (exit.reason == ReasonError ==>
            EndsIn(l', Errored, Some(ReasonError), false) && l'.run.error == exit.error)
      && (exit.reason == ExceedMaxIters ==> EndsIn(l', Completed, Some(ExceedMaxIters), false))
      && (exit.reason == ReasonCompleted ==>
            match reply.continueTurn
            case Answer(wanted) =>
              if wanted && !reply.cancelling && l.run.continuations < limits.maxContinuations then
                GoesOn(l, l', None) && l'.run.continuations == l.run.continuations + 1
              else EndsIn(l', Completed, Some(ReasonCompleted), false)
            case Stopped => EndsIn(l', Cancelled, Some(Interrupted), false)
            case Raised => EndsIn(l', Errored, Some(ReasonError), true))
  {
    if l.prev.Some? && l.prev.value.error.Some? {
      var e := l.prev.value.error.value;
      assert ("[" + e.code + "] " + e.message)[0] == '[';
    }
  }

  /** In every run the calls that the model asks for are what the next turn acts on. */
  lemma RequestedCallsAreActedOn(limits: Limits, continuations: int, replies: seq<Reply>, reply: Reply,
                                 answer: TurnResult)
    requires var l := Turns(Begin(continuations), limits, replies);
      l.going && Decision(l.run, limits, l.prev).0.Reasoning?
    requires reply.reasoning == Answer(answer) && answer.error.None? && |answer.toolCalls| > 0
    ensures var l' := Turns(Begin(continuations), limits, replies + [reply]);
      l'.going && Decision(l'.run, limits, l'.prev).0 == Acting(answer.toolCalls)
  {
    assert (replies + [reply])[..|replies|] == replies;
  }

  // ---------------------------------------------------------------- the bounds

  function Bound(max: int): nat {
    (if max < 0 then 0 else max) + 3
  }

  predicate Bounded(l: Loop, limits: Limits) {
    && (l.run.inFinalization ==> l.run.emptyRetries == MAX_EMPTY_RESPONSE_RETRIES)
    && l.run.emptyRetries <= MAX_EMPTY_RESPONSE_RETRIES
    && (limits.maxIterations.Some? ==>
          l.run.iteration + 3 <= Bound(limits.maxIterations.value) + l.run.emptyRetries
                                 + (if l.run.inFinalization then 1 else 0))
  }

  lemma ReasoningKeepsBounds(l: Loop, limits: Limits, reply: Reply)
    requires Bounded(l, limits) && l.going && Decision(l.run, limits, l.prev).0.Reasoning?
    ensures Bounded(Turn(l, limits, reply), limits)
  {
  }

  lemma OtherTurnKeepsBounds(l: Loop, limits: Limits, reply: Reply)
    requires Bounded(l, limits) && !(l.going && Decision(l.run, limits, l.prev).0.Reasoning?)
    ensures Bounded(Turn(l, limits, reply), limits)
  {
  }

  lemma TurnKeepsBounds(l: Loop, limits: Limits, reply: Reply)
    requires Bounded(l, limits)
    ensures Bounded(Turn(l, limits, reply), limits)
  {
    if l.going && Decision(l.run, limits, l.prev).0.Reasoning? {
      ReasoningKeepsBounds(l, limits, reply);
    } else {
      OtherTurnKeepsBounds(l, limits, reply);
    }
  }

  /** Whatever the surroundings answer, the number of model calls stays within
      `max_iterations` plus the empty retries used plus one for a forced finalization. */
  lemma {:induction false} CallsAreBounded(limits: Limits, continuations: int, replies: seq<Reply>)
    requires limits.maxIterations.Some?
    ensures var run := Turns(Begin(continuations), limits, replies).run;
      var base := if limits.maxIterations.value < 0 then 0 else limits.maxIterations.value;
      && run.iteration <= base + run.emptyRetries + (if run.inFinalization then 1 else 0)
      && run.iteration <= base + 3
      && Bounded(Turns(Begin(continuations), limits, replies), limits)
  {
    if replies != [] {
      CallsAreBounded(limits, continuations, replies[..|replies| - 1]);
      TurnKeepsBounds(Turns(Begin(continuations), limits, replies[..|replies| - 1]), limits, replies[|replies| - 1]);
    }
  }

  /** What is left of a bounded loop; every turn that does not end it uses some of it up. */
  function Remaining(l: Loop, max: int): int {
    2 * (Bound(max) - l.run.iteration) + (if l.prev.Some? then 1 else 0)
  }

  /** A bounded loop is over after at most `2 * (max_iterations + 3) + 1` turns. */
  lemma {:induction false} LoopEnds(limits: Limits, continuations: int, replies: seq<Reply>)
    requires limits.maxIterations.Some?
    ensures Turns(Begin(continuations), limits, replies).going ==>
              0 <= Remaining(Turns(Begin(continuations), limits, replies), limits.maxIterations.value)
                <= 2 * Bound(limits.maxIterations.value) - |replies|
    ensures |replies| > 2 * ((if limits.maxIterations.value < 0 then 0 else limits.maxIterations.value) + 3) ==>
              !Turns(Begin(continuations), limits, replies).going
  {
    if replies != [] {
      var front := replies[..|replies| - 1];
      LoopEnds(limits, continuations, front);
      CallsAreBounded(limits, continuations, front);
    }
  }

  lemma TurnContinues(l: Loop, limits: Limits, reply: Reply)
    ensures var c := Turn(l, limits, reply).run.continuations;
      c == l.run.continuations || (c == l.run.continuations + 1 && c <= limits.maxContinuations)
  {
  }

  /** `ContinueTurn` is followed at most as often as `max_continuations` allows. */
  lemma {:induction false} ContinuationsAreBounded(limits: Limits, continuations: int, replies: seq<Reply>)
    ensures var c := Turns(Begin(continuations), limits, replies).run.continuations;
      continuations <= c && (c <= continuations || c <= limits.maxContinuations)
  {
    if replies != [] {
      var front := replies[..|replies| - 1];
      ContinuationsAreBounded(limits, continuations, front);
      TurnContinues(Turns(Begin(continuations), limits, front), limits, replies[|replies| - 1]);
    }
  }

  // ---------------------------------------------------------------- empty responses

  predicate AnswersEmpty(l: Loop, limits: Limits, reply: Reply) {
    && l.going && Decision(l.run, limits, l.prev).0.Reasoning?
    && reply.reasoning.Answer? && Empty(reply.reasoning.value)
  }

  /** The number of empty model responses during the turns. */
  function EmptyResponses(l: Loop, limits: Limits, replies: seq<Reply>): nat {
    if replies == [] then 0
    else
      var front := replies[..|replies| - 1];
      EmptyResponses(l, limits, front)
      + (if AnswersEmpty(Turns(l, limits, front), limits, replies[|replies| - 1]) then 1 else 0)
  }

  /** The empty responses the run remembers: counted retries, the finalization, the one just seen. */
  function Remembered(l: Loop): nat {
    l.run.emptyRetries + (if l.run.inFinalization then 1 else 0)
    + (if l.prev.Some? && Empty(l.prev.value) then 1 else 0)
  }

  predicate GaveUp(l: Loop) {
    !l.going && l.run.status == Errored && l.run.error == EMPTY_FINAL_RESPONSE_MESSAGE
    && l.run.code == "empty_response"
  }

  predicate EmptyCounted(l: Loop, empties: nat) {
    && Remembered(l) == empties
    && l.run.emptyRetries <= MAX_EMPTY_RESPONSE_RETRIES
    && (l.run.inFinalization ==> l.run.emptyRetries == MAX_EMPTY_RESPONSE_RETRIES)
    && (l.going ==> l.run.error == "")
    && (!l.going ==> (empties == 4 <==> GaveUp(l)) && (empties == 4 <==> l.run.error == EMPTY_FINAL_RESPONSE_MESSAGE))
  }

  lemma ErrorTextIsOther(e: LlmError)
    ensures ErrorText(e) != EMPTY_FINAL_RESPONSE_MESSAGE && ErrorText(e) != ""
  {
    assert ErrorText(e)[0] == '[';
    assert EMPTY_FINAL_RESPONSE_MESSAGE[0] != '[';
  }

  function Seen(l: Loop, limits: Limits, reply: Reply): nat {
    if AnswersEmpty(l, limits, reply) then 1 else 0
  }

  lemma TurnCountsEmpty(l: Loop, limits: Limits, reply: Reply, empties: nat)
    requires EmptyCounted(l, empties)
    ensures EmptyCounted(Turn(l, limits, reply), empties + Seen(l, limits, reply))
  {
    if l.going {
      match Decision(l.run, limits, l.prev).0
      case Reasoning(_) => ReasoningCountsEmpty(l, limits, reply, empties);
      case Acting(_) => ActingCountsEmpty(l, limits, reply, empties);
      case Exit(_, _, _) => ExitCountsEmpty(l, limits, reply, empties);
    }
  }

  lemma ReasoningCountsEmpty(l: Loop, limits: Limits, reply: Reply, empties: nat)
    requires EmptyCounted(l, empties) && l.going && Decision(l.run, limits, l.prev).0.Reasoning?
    ensures EmptyCounted(Turn(l, limits, reply), empties + Seen(l, limits, reply))
  {
    assert EMPTY_FINAL_RESPONSE_MESSAGE != "";
  }

  lemma ActingCountsEmpty(l: Loop, limits: Limits, reply: Reply, empties: nat)
    requires EmptyCounted(l, empties) && l.going && Decision(l.run, limits, l.prev).0.Acting?
    ensures EmptyCounted(Turn(l, limits, reply), empties + Seen(l, limits, reply))
  {
    assert EMPTY_FINAL_RESPONSE_MESSAGE != "";
  }

  lemma ExitCountsEmpty(l: Loop, limits: Limits, reply: Reply, empties: nat)
    requires EmptyCounted(l, empties) && l.going && Decision(l.run, limits, l.prev).0.Exit?
    ensures EmptyCounted(Turn(l, limits, reply), empties + Seen(l, limits, reply))
  {
    assert EMPTY_FINAL_RESPONSE_MESSAGE[0] != '[';
    if l.prev.Some? && l.prev.value.error.Some? {
      ErrorTextIsOther(l.prev.value.error.value);
    }
  }

  /** A run never sees more than four empty responses, the fourth one ends it at the next decision,
      and a run that is over ended with the empty-response error exactly when it saw four. */
  lemma {:induction false} FourthEmptyResponseEnds(limits: Limits, continuations: int, replies: seq<Reply>)
    ensures var l := Turns(Begin(continuations), limits, replies);
      var n := EmptyResponses(Begin(continuations), limits, replies);
      && n <= 4
      && EmptyCounted(l, n)
      && (!l.going ==> (n == 4 <==> GaveUp(l)))
    ensures var l := Turns(Begin(continuations), limits, replies);
      var n := EmptyResponses(Begin(continuations), limits, replies);
      l.going && n == 4 ==> forall reply :: GaveUp(Turn(l, limits, reply))
  {
    if replies != [] {
      var front := replies[..|replies| - 1];
      FourthEmptyResponseEnds(limits, continuations, front);
      TurnCountsEmpty(Turns(Begin(continuations), limits, front), limits, replies[|replies| - 1],
        EmptyResponses(Begin(continuations), limits, front));
    }
  }

  // ---------------------------------------------------------------- how a run ends

  predicate EndsWell(l: Loop) {
    && (l.going <==> l.run.status == Running)
    && l.run.status != Idle
    && (l.run.doneReason.None? <==> l.run.status == Running || l.run.status == Paused)
    && (l.run.doneReason.Some? ==> l.run.status == StatusOf(l.run.doneReason.value))
    && (l.raised ==> l.run.status == Errored)
  }

  /** Exactly the turns that leave the loop for a permission. */
  predicate Asks(l: Loop, limits: Limits, reply: Reply) {
    l.going && Decision(l.run, limits, l.prev).0.Acting? && reply.asksPermission == Answer(true)
  }

  lemma TurnEndsWell(l: Loop, limits: Limits, reply: Reply)
    requires EndsWell(l)
    ensures EndsWell(Turn(l, limits, reply))
    ensures l.going ==> (Turn(l, limits, reply).run.status == Paused <==> Asks(l, limits, reply))
  {
  }

  /** Some turn left the loop for a permission. */
  predicate Asked(l: Loop, limits: Limits, replies: seq<Reply>) {
    replies != []
    && (var front := replies[..|replies| - 1];
        Asked(l, limits, front) || Asks(Turns(l, limits, front), limits, replies[|replies| - 1]))
  }

  /** A run that is over lacks a final reason exactly when a tool asked for a permission. */
  lemma {:induction false} LeftPausedIffAsked(limits: Limits, continuations: int, replies: seq<Reply>)
    ensures var l := Turns(Begin(continuations), limits, replies);
      && EndsWell(l)
      && (!l.going && l.run.doneReason.None? <==> Asked(Begin(continuations), limits, replies))
  {
    if replies != [] {
      var front := replies[..|replies| - 1];
      LeftPausedIffAsked(limits, continuations, front);
      TurnEndsWell(Turns(Begin(continuations), limits, front), limits, replies[|replies| - 1]);
    }
  }

  /** The number of turns that called the model. */
  function ModelCalls(l: Loop, limits: Limits, replies: seq<Reply>): nat {
    if replies == [] then 0
    else
      var front := replies[..|replies| - 1];
      var before := Turns(l, limits, front);
      ModelCalls(l, limits, front)
      + (if before.going && Decision(before.run, limits, before.prev).0.Reasoning? then 1 else 0)
  }

  /** What each final reason says about the run: a visible answer, the bound reached after other
      work, nothing else. */
  predicate ReasonHolds(l: Loop, limits: Limits) {
    match l.run.doneReason
    case None => true
    case Some(ReasonCompleted) =>
      l.prev.Some? && l.prev.value.error.None? && l.prev.value.toolCalls == [] && !Blank(l.prev.value.text)
    case Some(ExceedMaxIters) =>
      l.prev.None? && limits.maxIterations.Some? && l.run.iteration >= limits.maxIterations.value
    case Some(ReasonError) =>
      l.raised || GaveUp(l)
      || (l.prev.Some? && l.prev.value.error.Some? && l.run.error == ErrorText(l.prev.value.error.value))
    case Some(Interrupted) => true
  }

  /** `iteration` counts the model calls, and the reason a run ends with is true of it. */
  lemma {:induction false} EndReasonIsTrue(limits: Limits, continuations: int, replies: seq<Reply>)
    ensures var l := Turns(Begin(continuations), limits, replies);
      && (l.going ==> l.run.doneReason.None?)
      && ReasonHolds(l, limits)
      && l.run.iteration == ModelCalls(Begin(continuations), limits, replies)
  {
    if replies != [] {
      var front := replies[..|replies| - 1];
      EndReasonIsTrue(limits, continuations, front);
      TurnReasonHolds(Turns(Begin(continuations), limits, front), limits, replies[|replies| - 1]);
    }
  }

  lemma TurnReasonHolds(l: Loop, limits: Limits, reply: Reply)
    requires if l.going then l.run.doneReason.None? else ReasonHolds(l, limits)
    ensures ReasonHolds(Turn(l, limits, reply), limits)
    ensures Turn(l, limits, reply).going ==> Turn(l, limits, reply).run.doneReason.None?
    ensures Turn(l, limits, reply).run.iteration
         == l.run.iteration + (if l.going && Decision(l.run, limits, l.prev).0.Reasoning? then 1 else 0)
  {
    if l.prev.Some? && l.prev.value.error.Some? {
      ErrorTextIsOther(l.prev.value.error.value);
    }
  }

  // ---------------------------------------------------------------- the mutable run

  datatype Usage = Usage(promptTokens: nat, completionTokens: nat, totalTokens: nat)

  /** What a run carries besides: trace span, ids and token usage, which the loop does not read. */
  datatype Labels = Labels(
    traced: bool,
    replyId: string,
    messageId: string,
    turnId: string,
    tokenUsage: Usage,
    lastCallUsage: Option<Usage>)

  class RunState {
    var status: Status
    var iteration: nat
    var doneReason: Option<Reason>
    var error: string
    var code: string
    var emptyRetries: nat
    var inFinalization: bool
    var continuations: int
    var labels: Labels

    constructor ()
      ensures Value() == Run(Idle, 0, None, "", "", 0, false, 0)
      ensures labels == Labels(false, "", "", "", Usage(0, 0, 0), None)
    {
      labels := Labels(false, "", "", "", Usage(0, 0, 0), None);
      status, iteration, doneReason, error, code := Idle, 0, None, "", "";
      emptyRetries, inFinalization, continuations := 0, false, 0;
    }

    function Value(): Run
      reads this
    {
      Run(status, iteration, doneReason, error, code, emptyRetries, inFinalization, continuations)
    }

    /** `contextTurnId` comes from the runtime context, `generated` is a random part of an id for when there
        is none or an empty one. */
    method Start(contextTurnId: Option<string>, generated: string)
      modifies this
      ensures Value() == Fresh(old(continuations))
      ensures labels == Labels(false, "", "", labels.turnId, Usage(0, 0, 0), None)
      ensures labels.turnId == if contextTurnId in {None, Some("")} then "turn_" + generated else contextTurnId.value
    {
      status := Running;
      iteration := 0;
      error := "";
      code := "";
      doneReason := None;
      emptyRetries := 0;
      inFinalization := false;
      var named := contextTurnId.Some? && contextTurnId.value != "";
      var turnId := if named then contextTurnId.value else "turn_" + generated;
      labels := Labels(false, "", "", turnId, Usage(0, 0, 0), None);
    }

    method Decide(limits: Limits, prev: Option<TurnResult>) returns (action: Action)
      modifies this`emptyRetries, this`inFinalization
      ensures (action, Value()) == Decision(old(Value()), limits, prev)
      ensures DecidedAs(action, old(Value()), Value(), limits, prev)
    {
      DecisionIs(Value(), limits, prev);
      if prev.Some? && prev.value.error.Some? {
        return Exit(ReasonError, ErrorText(prev.value.error.value), prev.value.error.value.code);
      }
      if prev.Some? && prev.value.toolCalls != [] {
        return Acting(prev.value.toolCalls);
      }
      if prev.Some? && !Blank(prev.value.text) {
        return Exit(ReasonCompleted, "", "");
      }
      if prev.Some? {
        if inFinalization {
          return Exit(ReasonError, EMPTY_FINAL_RESPONSE_MESSAGE, "empty_response");
        }
        if emptyRetries < MAX_EMPTY_RESPONSE_RETRIES {
          emptyRetries := emptyRetries + 1;
          return Reasoning(false);
        }
        inFinalization := true;
        return Reasoning(true);
      }
      if limits.maxIterations.Some? && iteration >= limits.maxIterations.value {
        return Exit(ExceedMaxIters, "", "");
      }
      return Reasoning(false);
    }

    /** The loop of a started or resumed run, its surroundings answering `env(k)` in the k-th turn, for at
        most `fuel` turns; it has not `ended` if more are needed. Without `max_iterations` the program's
        loop need not end; with it a fresh run does. */
    method RunLoop(limits: Limits, env: nat -> Reply, fuel: nat)
      returns (ended: bool, raised: bool, ghost replies: seq<Reply>)
      modifies this
      ensures replies == seq(|replies|, k requires 0 <= k < |replies| => env(k))
      ensures !ended ==> |replies| == fuel
      ensures var l := Turns(Loop(old(Value()), None, true, false), limits, replies);
        l.going == !ended && l.run == Value() && l.raised == raised
      ensures old(Value()) == Fresh(old(continuations)) && limits.maxIterations.Some? ==>
                |replies| <= 2 * Bound(limits.maxIterations.value) + 1
                && (fuel > 2 * Bound(limits.maxIterations.value) ==> ended)
    {
      var prev: Option<TurnResult> := None;
      var going, turn: nat := true, 0;
      raised, replies := false, [];
      ghost var bounded := Value() == Fresh(continuations) && limits.maxIterations.Some?;
      while going
        invariant turn == |replies| <= fuel && replies == seq(turn, k requires 0 <= k < turn => env(k))
        invariant bounded ==> turn <= 2 * Bound(limits.maxIterations.value) + 1
        invariant going ==> !raised
        invariant Loop(Value(), prev, going, raised) == Turns(Loop(old(Value()), None, true, false), limits, replies)
        decreases going, fuel - turn
      {
        if bounded {
          LoopEnds(limits, old(continuations), replies);
        }
        if turn == fuel {
          return false, raised, replies;
        }
        prev, going, raised := OneTurn(limits, prev, env(turn));
        assert (replies + [env(turn)])[..turn] == replies;
        turn, replies := turn + 1, replies + [env(turn)];
      }
      ended := true;
    }

    /** One turn: decide, let the executor named by the action answer, take its effect. */
    method OneTurn(limits: Limits, prev: Option<TurnResult>, reply: Reply)
      returns (next: Option<TurnResult>, going: bool, raised: bool)
      modifies this
      ensures Loop(Value(), next, going, raised) == Turn(Loop(old(Value()), prev, true, false), limits, reply)
    {
      next, going, raised := prev, true, false;
      var action := Decide(limits, prev);
      match action
      case Reasoning(_) =>
        iteration := iteration + 1;
        next := None;
        match reply.reasoning {
          case Answer(result) => next := Some(result);
          case Stopped => going := Leave(Interrupted);
          case Raised =>
            going := Leave(ReasonError);
            raised := true;
        }
      case Acting(_) =>
        match reply.asksPermission {
          case Answer(asked) =>
            if asked {
              status := Paused;
              going := false;
            } else {
              next := None;
            }
          case Stopped => going := Leave(Interrupted);
          case Raised =>
            going := Leave(ReasonError);
            raised := true;
        }
      case Exit(reason, message, errorCode) =>
        if reason == ReasonCompleted && reply.continueTurn.Stopped? {
          going := Leave(Interrupted);
        } else if reason == ReasonCompleted && reply.continueTurn.Raised? {
          going := Leave(ReasonError);
          raised := true;
        } else if reason == ReasonCompleted && reply.continueTurn.value && !reply.cancelling
                  && continuations < limits.maxContinuations {
          continuations := continuations + 1;
          next := None;
        } else {
          Finalize(reason, message, errorCode);
          going := false;
        }
    }

    method Leave(reason: Reason) returns (going: bool)
      modifies this`status, this`doneReason, this`error, this`code
      ensures !going && Value() == Finalized(old(Value()), reason, "", "")
    {
      Finalize(reason, "", "");
      going := false;
    }

    method Finalize(reason: Reason, message: string, errorCode: string)
      modifies this`status, this`doneReason, this`error, this`code
      ensures Value() == Finalized(old(Value()), reason, message, errorCode)
    {
      doneReason := Some(reason);
      status := StatusOf(reason);
      if message != "" {
        error := message;
      }
      if errorCode != "" {
        code := errorCode;
      }
    }
  }
}
