/** `stream_with_fallback`: forward the primary provider's chunks and, when the primary fails
    before it has committed any output and the policy allows it, splice in one run of a backup
    provider.

    `Spliced` says what the consumer sees; the generator loop is proved to produce it. The results
    join this file to the assembler: the spliced stream of two accepted streams is accepted
    (`SplicedIsAccepted`), it never mixes the output of two providers (`OneProviderCommits`), it
    carries at most one finish and nothing after it (`OneFinishAndItIsLast`), a takeover that
    succeeds is indistinguishable from the backup alone (`TakeoverShowsTheBackup`), and one that fails
    leaves what the backup had sent, finished by the primary's error
    (`FailedTakeoverReportsThePrimary`). */
module Fallback {
  import opened Prelude
  import opened BlockAssembler

  /** How a provider's iterator ends after its chunks; `Raised` carries the classified error. */
  datatype Ending = Exhausted | Raised(failure: Failure) | Interrupted

  datatype Provider = Provider(chunks: seq<Chunk>, ending: Ending)

  /** Resolving and preparing the backup call can fail, be cancelled, or yield a stream. */
  datatype Backup = Unavailable | PreparationCancelled | Ready(provider: Provider)

  datatype Outcome = Returned | Reraised(failure: Failure) | Cancelled

  datatype Policy = Policy(
    attempt: int,
    maxAttempts: int,
    cancelled: bool,
    enabled: bool,
    errors: set<string>,
    excluded: set<string>)

  const OVERFLOW_MARKERS := ["overflow", "context_length", "context length", "too_long", "too long"]

  function Lower(text: string): string {
    seq(|text|, k requires 0 <= k < |text| =>
      if 'A' <= text[k] <= 'Z' then text[k] - 'A' + 'a' else text[k])
  }

  predicate OccursAt(text: string, part: string, k: nat) {
    k + |part| <= |text| && text[k..k + |part|] == part
  }

  predicate Contains(text: string, part: string) {
    exists k: nat :: k <= |text| && OccursAt(text, part, k)
  }

  predicate MentionsOverflow(code: string, message: string) {
    exists k :: 0 <= k < |OVERFLOW_MARKERS| && Contains(Lower(code + " " + message), OVERFLOW_MARKERS[k])
  }

  predicate CanFallback(policy: Policy, failure: Failure) {
    && policy.attempt == policy.maxAttempts && !policy.cancelled && policy.enabled
    && failure.code != "" && failure.code !in policy.excluded
    && !MentionsOverflow(failure.code, failure.message)
    && failure.code in policy.errors
  }

  /** The normalised failure of an error finish. */
  function FailureDetails(reason: FinishReason): Failure {
    if reason.failure.None? then Failure("", "")
    else Failure(Lower(reason.failure.value.code), reason.failure.value.message)
  }

  predicate CommitsOutput(c: Chunk) {
    match c
    case TextDelta(_, text) => text != ""
    case ReasoningDelta(_, text) => text != ""
    case ToolDelta(_, callId, name, arguments) => callId != "" || name != "" || arguments != ""
    case Start(_, _) => true
    case End(_, _) => true
    case _ => false
  }

  function ErrorFinish(failure: Failure): Chunk {
    Finish(FinishReason(Error, Some(failure)))
  }

  predicate Failing(c: Chunk) {
    c.Finish? && (c.reason.kind == Error || c.reason.kind == Aborted)
  }

  // ---------------------------------------------------------------- what the consumer sees

  function BeforeFinish(cs: seq<Chunk>): seq<Chunk> {
    if cs == [] || cs[0].Finish? then [] else [cs[0]] + BeforeFinish(cs[1..])
  }

  predicate Committed(cs: seq<Chunk>) {
    exists k :: 0 <= k < |cs| && CommitsOutput(cs[k])
  }

  /** The primary's failure, held back, when the backup is to take over. */
  function HeldError(policy: Policy, primary: Provider): Option<Chunk> {
    var head := BeforeFinish(primary.chunks);
    if Committed(head) then None
    else if |head| < |primary.chunks| then
      var finish := primary.chunks[|head|];
      if finish.Finish? && finish.reason.kind == Error && CanFallback(policy, FailureDetails(finish.reason))
      then Some(finish) else None
    else if primary.ending.Raised? && CanFallback(policy, primary.ending.failure)
    then Some(ErrorFinish(primary.ending.failure)) else None
  }

  function FromPrimary(policy: Policy, primary: Provider): seq<Chunk> {
    var head := BeforeFinish(primary.chunks);
    if HeldError(policy, primary).Some? || |head| >= |primary.chunks| then head
    else head + [primary.chunks[|head|]]
  }

  /** The backup's chunks up to its first successful finish, without its failing finishes. */
  function Relay(cs: seq<Chunk>): seq<Chunk> {
    if cs == [] then []
    else if Failing(cs[0]) then Relay(cs[1..])
    else if cs[0].Finish? then [cs[0]]
    else [cs[0]] + Relay(cs[1..])
  }

  predicate Succeeds(cs: seq<Chunk>) {
    exists k :: 0 <= k < |cs| && cs[k].Finish? && !Failing(cs[k])
  }

  function FromBackup(policy: Policy, primary: Provider, backup: Backup): seq<Chunk> {
    if HeldError(policy, primary).Some? && backup.Ready? then Relay(backup.provider.chunks) else []
  }

  /** The held error is delivered after all when the backup cannot finish. */
  function Closing(policy: Policy, primary: Provider, backup: Backup): seq<Chunk> {
    var held := HeldError(policy, primary);
    if held.None? || backup.PreparationCancelled? then []
    else if backup.Unavailable? then [held.value]
    else if Succeeds(backup.provider.chunks) || backup.provider.ending.Interrupted? then []
    else [held.value]
  }

  function Spliced(policy: Policy, primary: Provider, backup: Backup): seq<Chunk> {
    FromPrimary(policy, primary) + FromBackup(policy, primary, backup) + Closing(policy, primary, backup)
  }

  function OutcomeOf(policy: Policy, primary: Provider, backup: Backup): Outcome {
    if HeldError(policy, primary).Some? then
      if backup.PreparationCancelled? then Cancelled
      else if backup.Ready? && !Succeeds(backup.provider.chunks) && backup.provider.ending.Interrupted? then Cancelled
      else Returned
    else if |BeforeFinish(primary.chunks)| < |primary.chunks| then Returned
    else match primary.ending
      case Exhausted => Returned
      case Raised(failure) => Reraised(failure)
      case Interrupted => Cancelled
  }

  // ---------------------------------------------------------------- the generator

  /** `out` is everything yielded, in order. */
  method StreamWithFallback(policy: Policy, primary: Provider, backup: Backup)
    returns (out: seq<Chunk>, outcome: Outcome)
    ensures out == Spliced(policy, primary, backup)
    ensures outcome == OutcomeOf(policy, primary, backup)
  {
    var primaryError;
    out, primaryError, outcome := ForwardPrimary(policy, primary, backup);
    if primaryError.None? {
      return;
    }
    match backup {
      case Unavailable => return out + [primaryError.value], Returned;
      case PreparationCancelled => return out, Cancelled;
      case Ready(provider) =>
        var ended, relayed := RelayBackup(provider);
        out := out + relayed;
        if !ended {
          if provider.ending.Interrupted? {
            return out, Cancelled;
          }
          out := out + [primaryError.value];
        }
        return out, Returned;
    }
  }

  lemma AtFinish(policy: Policy, primary: Provider, backup: Backup, n: nat)
    requires n < |primary.chunks| && BeforeFinish(primary.chunks) == primary.chunks[..n] && primary.chunks[n].Finish?
    ensures var finish := primary.chunks[n];
      if finish.reason.kind == Error && !Committed(primary.chunks[..n])
         && CanFallback(policy, FailureDetails(finish.reason))
      then HeldError(policy, primary) == Some(finish) && FromPrimary(policy, primary) == primary.chunks[..n]
      else HeldError(policy, primary) == None && FromPrimary(policy, primary) == primary.chunks[..n] + [finish]
           && OutcomeOf(policy, primary, backup) == Returned
  {
  }

  lemma AtExhaustion(policy: Policy, primary: Provider, backup: Backup)
    requires BeforeFinish(primary.chunks) == primary.chunks
    ensures FromPrimary(policy, primary) == primary.chunks
    ensures if primary.ending.Raised? && !Committed(primary.chunks) && CanFallback(policy, primary.ending.failure)
            then HeldError(policy, primary) == Some(ErrorFinish(primary.ending.failure))
            else HeldError(policy, primary) == None
                 && OutcomeOf(policy, primary, backup) == match primary.ending {
                      case Exhausted => Returned
                      case Raised(failure) => Reraised(failure)
                      case Interrupted => Cancelled
                    }
  {
  }

  /** The primary's finish at the place `n`: forwarded, or held back for a takeover. */
  method OnFinish(policy: Policy, primary: Provider, ghost backup: Backup, n: nat, committed: bool)
    returns (out: seq<Chunk>, primaryError: Option<Chunk>, outcome: Outcome)
    requires n < |primary.chunks| && BeforeFinish(primary.chunks) == primary.chunks[..n] && primary.chunks[n].Finish?
    requires committed <==> Committed(primary.chunks[..n])
    ensures out == FromPrimary(policy, primary)
    ensures primaryError == HeldError(policy, primary)
    ensures primaryError.None? ==> outcome == OutcomeOf(policy, primary, backup)
  {
    var c := primary.chunks[n];
    AtFinish(policy, primary, backup, n);
    if c.reason.kind != Error {
      return primary.chunks[..n] + [c], None, Returned;
    }
    if committed || !CanFallback(policy, FailureDetails(c.reason)) {
      return primary.chunks[..n] + [c], None, Returned;
    }
    return primary.chunks[..n], Some(c), Returned;
  }

  /** How the primary's iterator ends when it sent no finish. */
  method AfterChunks(policy: Policy, primary: Provider, ghost backup: Backup, committed: bool)
    returns (primaryError: Option<Chunk>, outcome: Outcome)
    requires BeforeFinish(primary.chunks) == primary.chunks && (committed <==> Committed(primary.chunks))
    ensures FromPrimary(policy, primary) == primary.chunks
    ensures primaryError == HeldError(policy, primary)
    ensures primaryError.None? ==> outcome == OutcomeOf(policy, primary, backup)
  {
    AtExhaustion(policy, primary, backup);
    match primary.ending {
      case Exhausted => return None, Returned;
      case Interrupted => return None, Cancelled;
      case Raised(failure) =>
        if committed || !CanFallback(policy, failure) {
          return None, Reraised(failure);
        }
        return Some(ErrorFinish(failure)), Returned;
    }
  }

  lemma BeforeFinishStep(head: seq<Chunk>, cs: seq<Chunk>, k: nat)
    requires k < |cs| && head == cs[..k] + BeforeFinish(cs[k..])
    ensures if cs[k].Finish? then head == cs[..k] else head == cs[..k + 1] + BeforeFinish(cs[k + 1..])
  {
    var rest := cs[k..];
    assert rest[0] == cs[k] && rest[1..] == cs[k + 1..];
    if !cs[k].Finish? {
      Reassociate(cs[..k], [cs[k]], BeforeFinish(cs[k + 1..]));
      assert cs[..k + 1] == cs[..k] + [cs[k]];
    }
  }

  lemma Reassociate<T>(a: seq<T>, b: seq<T>, c: seq<T>)
    ensures a + (b + c) == (a + b) + c
  {
  }

  /** The primary's loop: the chunks forwarded, the error held back for a takeover, and how the
      generator ends when there is none. */
  method ForwardPrimary(policy: Policy, primary: Provider, ghost backup: Backup)
    returns (out: seq<Chunk>, primaryError: Option<Chunk>, outcome: Outcome)
    ensures out == FromPrimary(policy, primary)
    ensures primaryError == HeldError(policy, primary)
    ensures primaryError.None? ==> outcome == OutcomeOf(policy, primary, backup)
  {
    out := [];
    var committed := false;
    var chunks := primary.chunks;
    for k := 0 to |chunks|
      invariant out == chunks[..k]
      invariant BeforeFinish(chunks) == chunks[..k] + BeforeFinish(chunks[k..])
      invariant committed <==> Committed(out)
    {
      var c := chunks[k];
      BeforeFinishStep(BeforeFinish(chunks), chunks, k);
      if c.Finish? {
        out, primaryError, outcome := OnFinish(policy, primary, backup, k, committed);
        return;
      }
      CommittedSnoc(out, c);
      committed := committed || CommitsOutput(c);
      out := out + [c];
    }
    assert out == chunks;
    primaryError, outcome := AfterChunks(policy, primary, backup, committed);
  }

  /** The backup's loop; `ended` tells whether it reached a successful finish. */
  method RelayBackup(provider: Provider) returns (ended: bool, relayed: seq<Chunk>)
    ensures relayed == Relay(provider.chunks)
    ensures ended <==> Succeeds(provider.chunks)
  {
    relayed := [];
    var cs := provider.chunks;
    for k := 0 to |cs|
      invariant Relay(cs) == relayed + Relay(cs[k..])
      invariant forall j :: 0 <= j < k ==> !cs[j].Finish? || Failing(cs[j])
    {
      assert cs[k..][1..] == cs[k + 1..];
      if !Failing(cs[k]) {
        relayed := relayed + [cs[k]];
        if cs[k].Finish? {
          return true, relayed;
        }
      }
    }
    return false, relayed;
  }

  // ---------------------------------------------------------------- lemmas about the parts

  lemma {:induction false} BeforeFinishStops(cs: seq<Chunk>)
    ensures var head := BeforeFinish(cs);
      && |head| <= |cs| && head == cs[..|head|]
      && (forall k :: 0 <= k < |head| ==> !head[k].Finish?)
      && (|head| < |cs| ==> cs[|head|].Finish?)
  {
    if cs != [] && !cs[0].Finish? {
      BeforeFinishStops(cs[1..]);
    }
  }

  lemma CommittedSnoc(cs: seq<Chunk>, c: Chunk)
    ensures Committed(cs + [c]) <==> Committed(cs) || CommitsOutput(c)
  {
    if Committed(cs) {
      var k :| 0 <= k < |cs| && CommitsOutput(cs[k]);
      assert CommitsOutput((cs + [c])[k]);
    }
    if CommitsOutput(c) {
      assert CommitsOutput((cs + [c])[|cs|]);
    }
  }

  /** What the backup contributes ends with its successful finish, if it has one, and carries no
      other finish. */
  lemma {:induction false} RelayFinishesLast(cs: seq<Chunk>)
    ensures forall k :: 0 <= k < |Relay(cs)| - 1 ==> !Relay(cs)[k].Finish?
    ensures Succeeds(cs) ==> Relay(cs) != [] && Relay(cs)[|Relay(cs)| - 1].Finish?
    ensures !Succeeds(cs) ==> forall k :: 0 <= k < |Relay(cs)| ==> !Relay(cs)[k].Finish?
  {
    if cs != [] {
      RelayFinishesLast(cs[1..]);
      if Succeeds(cs[1..]) {
        var k :| 0 <= k < |cs[1..]| && cs[1..][k].Finish? && !Failing(cs[1..][k]);
        assert cs[k + 1].Finish? && !Failing(cs[k + 1]);
      } else if cs[0].Finish? && !Failing(cs[0]) {
        assert Succeeds(cs);
      } else {
        assert forall k :: 0 <= k < |cs[1..]| ==> cs[1..][k] == cs[k + 1];
      }
    }
  }

  /** At most one finish is emitted and nothing follows it, whatever the providers send. */
  lemma OneFinishAndItIsLast(policy: Policy, primary: Provider, backup: Backup)
    ensures var out := Spliced(policy, primary, backup);
      forall k :: 0 <= k < |out| - 1 ==> !out[k].Finish?
  {
    BeforeFinishStops(primary.chunks);
    if backup.Ready? {
      RelayFinishesLast(backup.provider.chunks);
    }
  }

  /** The chunk makes the consumer's message or block take shape. */
  predicate Shows(c: Chunk) {
    || c.Start? || c.End?
    || ((c.TextDelta? || c.ReasoningDelta?) && |c.text| > 0)
    || (c.ToolDelta? && (|c.callId| > 0 || |c.name| > 0 || |c.arguments| > 0))
  }

  /** One of the overflow markers occurs in the error's text. */
  predicate SpeaksOfOverflow(text: string) {
    || Contains(text, "overflow") || Contains(text, "context_length") || Contains(text, "context length")
    || Contains(text, "too_long") || Contains(text, "too long")
  }

  /** The primary's first finish is at `n`, or it has none and `n` is its length. */
  predicate FinishesAt(chunks: seq<Chunk>, n: nat) {
    && n <= |chunks| && (n < |chunks| ==> chunks[n].Finish?)
    && forall k :: 0 <= k < n ==> !chunks[k].Finish?
  }

  /** The error the primary ends in: that of its finish, its code in lower case, or the one it raised. */
  function ErrorOf(primary: Provider, n: nat): Option<Failure>
    requires FinishesAt(primary.chunks, n)
  {
    if n < |primary.chunks| then
      var reason := primary.chunks[n].reason;
      if reason.kind != Error then None
      else if reason.failure.None? then Some(Failure("", ""))
      else Some(Failure(Lower(reason.failure.value.code), reason.failure.value.message))
    else if primary.ending.Raised? then Some(primary.ending.failure)
    else None
  }

  /** When a backup is asked for: the primary ends in an error before it has shown anything, on the last
      attempt of a call that is enabled and not cancelled, and the error is listed, not excluded and
      does not speak of an overflow. */
  predicate AsksForBackup(policy: Policy, primary: Provider, n: nat)
    requires FinishesAt(primary.chunks, n)
  {
    && (forall k :: 0 <= k < n ==> !Shows(primary.chunks[k]))
    && policy.attempt == policy.maxAttempts && policy.enabled && !policy.cancelled
    && match ErrorOf(primary, n)
       case None => false
       case Some(e) =>
         && |e.code| > 0 && e.code in policy.errors && e.code !in policy.excluded
         && !SpeaksOfOverflow(Lower(e.code + " " + e.message))
  }

  lemma {:induction false} FinishesBefore(cs: seq<Chunk>, n: nat)
    requires FinishesAt(cs, n)
    ensures BeforeFinish(cs) == cs[..n]
  {
    if n > 0 {
      assert FinishesAt(cs[1..], n - 1);
      FinishesBefore(cs[1..], n - 1);
      assert cs[..n] == [cs[0]] + cs[1..][..n - 1];
    }
  }

  lemma OverflowIsSpoken(code: string, message: string)
    ensures MentionsOverflow(code, message) <==> SpeaksOfOverflow(Lower(code + " " + message))
  {
    var text := Lower(code + " " + message);
    assert OVERFLOW_MARKERS[0] == "overflow" && OVERFLOW_MARKERS[1] == "context_length";
    assert OVERFLOW_MARKERS[2] == "context length" && OVERFLOW_MARKERS[3] == "too_long";
    assert OVERFLOW_MARKERS[4] == "too long" && |OVERFLOW_MARKERS| == 5;
  }

  /** A text contains what stands anywhere in it. */
  lemma ContainsIff(text: string, part: string)
    ensures Contains(text, part) <==> exists before, after :: text == before + part + after
  {
    if Contains(text, part) {
      var k: nat :| k <= |text| && OccursAt(text, part, k);
      assert text == text[..k] + part + text[k + |part|..];
    }
    if before, after :| text == before + part + after {
      assert OccursAt(text, part, |before|);
    }
  }

  lemma CommittedIff(cs: seq<Chunk>, n: nat)
    requires n <= |cs|
    ensures Committed(cs[..n]) <==> exists k :: 0 <= k < n && Shows(cs[k])
  {
    if Committed(cs[..n]) {
      var k :| 0 <= k < n && CommitsOutput(cs[..n][k]);
      assert Shows(cs[k]);
    }
    if k :| 0 <= k < n && Shows(cs[k]) {
      assert CommitsOutput(cs[..n][k]);
    }
  }

  /** The primary's error is held back exactly when a backup is asked for. */
  lemma HeldIff(policy: Policy, primary: Provider, n: nat)
    requires FinishesAt(primary.chunks, n)
    ensures HeldError(policy, primary) ==
      if !AsksForBackup(policy, primary, n) then None
      else if n < |primary.chunks| then Some(primary.chunks[n])
      else Some(Finish(FinishReason(Error, Some(primary.ending.failure))))
  {
    FinishesBefore(primary.chunks, n);
    CommittedIff(primary.chunks, n);
    if ErrorOf(primary, n).Some? {
      var e := ErrorOf(primary, n).value;
      OverflowIsSpoken(e.code, e.message);
    }
  }

  /** What the consumer gets: when no backup is asked for, the primary's chunks up to its first finish;
      otherwise its chunks before that, then the backup's, and the held error if the backup is not
      there or fails. */
  lemma ConsumerGets(policy: Policy, primary: Provider, backup: Backup, n: nat)
    requires FinishesAt(primary.chunks, n)
    ensures var out := Spliced(policy, primary, backup);
      var held := if n < |primary.chunks| then primary.chunks[n]
                  else if primary.ending.Raised? then Finish(FinishReason(Error, Some(primary.ending.failure)))
                  else Unrecognised;
      if !AsksForBackup(policy, primary, n) then
        out == primary.chunks[..if n < |primary.chunks| then n + 1 else n]
      else
        match backup
        case Unavailable => out == primary.chunks[..n] + [held]
        case PreparationCancelled => out == primary.chunks[..n]
        case Ready(p) =>
          out == primary.chunks[..n] + Relay(p.chunks)
                 + (if Succeeds(p.chunks) || p.ending.Interrupted? then [] else [held])
  {
    HeldIff(policy, primary, n);
    FinishesBefore(primary.chunks, n);
    assert forall out: seq<Chunk> :: out + [] == out;
    if !AsksForBackup(policy, primary, n) && n < |primary.chunks| {
      assert primary.chunks[..n + 1] == primary.chunks[..n] + [primary.chunks[n]];
    }
  }

  /** How the generator ends: as the primary did when no backup is asked for; otherwise it returns, unless
      preparing the backup or an unfinished backup was cancelled. */
  lemma EndsAs(policy: Policy, primary: Provider, backup: Backup, n: nat)
    requires FinishesAt(primary.chunks, n)
    ensures OutcomeOf(policy, primary, backup) ==
      if AsksForBackup(policy, primary, n) then
        match backup
        case Unavailable => Returned
        case PreparationCancelled => Cancelled
        case Ready(p) => if p.ending.Interrupted? && !Succeeds(p.chunks) then Cancelled else Returned
      else if n < |primary.chunks| then Returned
      else match primary.ending
        case Exhausted => Returned
        case Raised(failure) => Reraised(failure)
        case Interrupted => Cancelled
  {
    HeldIff(policy, primary, n);
    FinishesBefore(primary.chunks, n);
  }

  predicate NoFinish(cs: seq<Chunk>) {
    forall k :: 0 <= k < |cs| ==> !cs[k].Finish?
  }

  /** What is relayed of a backup: everything up to its first finish; a failing finish is left out and what
      follows it is relayed in the same way, any other finish is the end and the success. */
  lemma {:induction false} RelayedIs(before: seq<Chunk>, finish: Chunk, rest: seq<Chunk>)
    requires NoFinish(before) && finish.Finish?
    ensures Relay(before) == before && !Succeeds(before)
    ensures var failing := finish.reason.kind == Error || finish.reason.kind == Aborted;
      && Relay(before + ([finish] + rest)) == before + (if failing then Relay(rest) else [finish])
      && (Succeeds(before + ([finish] + rest)) <==> !failing || Succeeds(rest))
  {
    var cs := before + ([finish] + rest);
    SucceedsIff(before, finish, rest);
    if before == [] {
      assert cs[0] == finish && cs[1..] == rest;
    } else {
      assert cs[0] == before[0] && cs[1..] == before[1..] + ([finish] + rest);
      RelayedIs(before[1..], finish, rest);
      assert before == [before[0]] + before[1..];
    }
  }

  lemma SucceedsIff(before: seq<Chunk>, finish: Chunk, rest: seq<Chunk>)
    requires NoFinish(before) && finish.Finish?
    ensures Succeeds(before + ([finish] + rest)) <==>
              !(finish.reason.kind == Error || finish.reason.kind == Aborted) || Succeeds(rest)
  {
    var cs, b := before + ([finish] + rest), |before|;
    assert cs[b] == finish && forall k :: 0 <= k < |rest| ==> cs[b + 1 + k] == rest[k];
    if Succeeds(rest) {
      var k :| 0 <= k < |rest| && rest[k].Finish? && !Failing(rest[k]);
      assert cs[b + 1 + k] == rest[k];
    }
    if Succeeds(cs) && Failing(finish) {
      var k :| 0 <= k < |cs| && cs[k].Finish? && !Failing(cs[k]);
      assert k > b && cs[k] == rest[k - b - 1];
    }
  }

  /** Lower case changes the letters A to Z and nothing else. */
  lemma LowerAt(text: string, k: nat)
    requires k < |text|
    ensures |Lower(text)| == |text|
    ensures if 'A' <= text[k] <= 'Z' then Lower(text)[k] as int == text[k] as int + 32 else Lower(text)[k] == text[k]
  {
  }

  /** All output-committing chunks come from one provider: once the primary has committed, no chunk
      of the backup is emitted and its failure reaches the consumer as it is. */
  lemma OneProviderCommits(policy: Policy, primary: Provider, backup: Backup)
    ensures FromPrimary(policy, primary) <= primary.chunks
    ensures !Committed(FromPrimary(policy, primary)) || !Committed(FromBackup(policy, primary, backup))
    ensures !Committed(Closing(policy, primary, backup))
    ensures Committed(BeforeFinish(primary.chunks)) ==>
              Spliced(policy, primary, backup) == FromPrimary(policy, primary)
  {
    BeforeFinishStops(primary.chunks);
  }

  // ---------------------------------------------------------------- the assembler accepts the splice

  ghost predicate OnlyUsage(cs: seq<Chunk>) {
    forall k :: 0 <= k < |cs| ==> cs[k].Usage?
  }

  lemma {:induction false} UncommittedIsUsage(cs: seq<Chunk>)
    requires Accepts(cs) && !Committed(cs)
    requires forall k :: 0 <= k < |cs| ==> !cs[k].Finish?
    ensures OnlyUsage(cs) && Run(cs).value == Fresh.(usage := Run(cs).value.usage)
  {
    if cs != [] {
      var front, last := cs[..|cs| - 1], cs[|cs| - 1];
      assert front + [last] == cs;
      CommittedSnoc(front, last);
      UncommittedIsUsage(front);
      RunSnoc(front, last);
      assert last.Usage?;
    }
  }

  lemma FeedIgnoresUsage(s: State, t: State, c: Chunk)
    requires t == s.(usage := t.usage)
    ensures Feed(s, c).Ok? <==> Feed(t, c).Ok?
    ensures Feed(s, c).Ok? ==> Feed(t, c).value == Feed(s, c).value.(usage := Feed(t, c).value.usage)
  {
  }

  /** Usage sent before a stream changes neither its acceptance nor anything but the usage. */
  lemma {:induction false} UsageFirstIsInvisible(pre: seq<Chunk>, cs: seq<Chunk>)
    requires OnlyUsage(pre)
    ensures Accepts(pre + cs) <==> Accepts(cs)
    ensures Accepts(cs) ==> Run(pre + cs).value == Run(cs).value.(usage := Run(pre + cs).value.usage)
  {
    if cs == [] {
      assert pre + cs == pre;
      UsageOnlyRun(pre);
    } else {
      var front, last := cs[..|cs| - 1], cs[|cs| - 1];
      UsageFirstIsInvisible(pre, front);
      assert front + [last] == cs && (pre + front) + [last] == pre + cs;
      RunSnoc(front, last);
      RunSnoc(pre + front, last);
      if Accepts(front) {
        FeedIgnoresUsage(Run(front).value, Run(pre + front).value, last);
      }
    }
  }

  lemma {:induction false} UsageOnlyRun(pre: seq<Chunk>)
    requires OnlyUsage(pre)
    ensures Accepts(pre) && Run(pre).value == Fresh.(usage := Run(pre).value.usage)
  {
    if pre != [] {
      UsageOnlyRun(pre[..|pre| - 1]);
    }
  }

  lemma {:induction false} RelayOfUnfinished(cs: seq<Chunk>)
    requires forall k :: 0 <= k < |cs| ==> !cs[k].Finish?
    ensures Relay(cs) == cs
  {
    if cs != [] {
      RelayOfUnfinished(cs[1..]);
    }
  }

  lemma {:induction false} RelayAppend(cs: seq<Chunk>, c: Chunk)
    requires forall k :: 0 <= k < |cs| ==> !cs[k].Finish?
    ensures Relay(cs + [c]) == cs + (if Failing(c) then [] else [c])
  {
    if cs == [] {
      assert Relay([c][1..]) == [];
      assert cs + [c] == [c];
    } else {
      RelayAppend(cs[1..], c);
      assert (cs + [c])[1..] == cs[1..] + [c];
    }
  }

  lemma FinishOnlyLast(cs: seq<Chunk>)
    requires Accepts(cs)
    ensures forall k :: 0 <= k < |cs| - 1 ==> !cs[k].Finish?
  {
    forall k | 0 <= k < |cs| - 1
      ensures !cs[k].Finish?
    {
      AcceptedPrefix(cs, |cs| - 1);
      var front := cs[..|cs| - 1];
      assert front + [cs[|cs| - 1]] == cs;
      RunSnoc(front, cs[|cs| - 1]);
      RunRecords(front);
      assert front[k] == cs[k];
      assert forall reason :: Finish(reason) !in front;
    }
  }

  /** From an accepted backup the relay is the stream itself, less a failing finish at its end. */
  lemma RelayOfAccepted(cs: seq<Chunk>)
    requires Accepts(cs)
    ensures Accepts(Relay(cs))
    ensures Succeeds(cs) ==> Relay(cs) == cs
    ensures !Succeeds(cs) ==> Run(Relay(cs)).value.finish.None?
  {
    FinishOnlyLast(cs);
    RunRecords(cs);
    if cs != [] && cs[|cs| - 1].Finish? {
      RelayOfFinished(cs);
    } else {
      RelayOfUnfinished(cs);
      assert forall reason :: Finish(reason) !in cs;
    }
  }

  lemma RelayOfFinished(cs: seq<Chunk>)
    requires Accepts(cs) && cs != [] && cs[|cs| - 1].Finish?
    requires forall k :: 0 <= k < |cs| - 1 ==> !cs[k].Finish?
    ensures Accepts(Relay(cs))
    ensures Succeeds(cs) ==> Relay(cs) == cs
    ensures !Succeeds(cs) ==> Run(Relay(cs)).value.finish.None?
  {
    var front, last := cs[..|cs| - 1], cs[|cs| - 1];
    assert front + [last] == cs;
    RelayAppend(front, last);
    if Failing(last) {
      assert Relay(cs) == front;
    } else {
      assert Relay(cs) == cs;
      assert cs[|cs| - 1].Finish? && !Failing(cs[|cs| - 1]);
    }
  }

  lemma FinishIsAccepted(cs: seq<Chunk>, c: Chunk)
    requires Accepts(cs) && Run(cs).value.finish.None? && c.Finish?
    ensures Accepts(cs + [c])
  {
    RunSnoc(cs, c);
  }

  lemma HeldErrorIsAFinish(policy: Policy, primary: Provider)
    requires HeldError(policy, primary).Some?
    ensures HeldError(policy, primary).value.Finish?
    ensures FromPrimary(policy, primary) == BeforeFinish(primary.chunks)
  {
  }

  /** Splicing two streams that the assembler accepts chunk by chunk gives a stream it accepts
      chunk by chunk, including when the backup fails midway. */
  lemma SplicedIsAccepted(policy: Policy, primary: Provider, backup: Backup)
    requires Accepts(primary.chunks)
    requires backup.Ready? ==> Accepts(backup.provider.chunks)
    ensures Accepts(Spliced(policy, primary, backup))
  {
    var out := Spliced(policy, primary, backup);
    var head := BeforeFinish(primary.chunks);
    BeforeFinishStops(primary.chunks);
    if HeldError(policy, primary).None? {
      assert out == primary.chunks[..|out|];
      AcceptedPrefix(primary.chunks, |out|);
    } else {
      var held := HeldError(policy, primary).value;
      HeldErrorIsAFinish(policy, primary);
      AcceptedPrefix(primary.chunks, |head|);
      UncommittedIsUsage(head);
      var rest := FromBackup(policy, primary, backup);
      if backup.Ready? {
        RelayOfAccepted(backup.provider.chunks);
      }
      UsageFirstIsInvisible(head, rest);
      if Closing(policy, primary, backup) == [] {
        assert out == head + rest;
      } else {
        FinishIsAccepted(head + rest, held);
        assert out == (head + rest) + [held];
      }
    }
  }

  /** After a takeover that succeeds the consumer holds the backup's reply and nothing else. */
  lemma TakeoverShowsTheBackup(policy: Policy, primary: Provider, backup: Backup)
    requires Accepts(primary.chunks) && HeldError(policy, primary).Some?
    requires backup.Ready? && Accepts(backup.provider.chunks) && Succeeds(backup.provider.chunks)
    ensures var out := Spliced(policy, primary, backup);
      var reply := Run(backup.provider.chunks).value;
      && Accepts(out)
      && Run(out).value == reply.(usage := Run(out).value.usage)
      && Validate(Run(out).value) == Validate(reply)
      && BlockAssembler.Blocks(Run(out).value) == BlockAssembler.Blocks(reply)
  {
    var head := BeforeFinish(primary.chunks);
    BeforeFinishStops(primary.chunks);
    HeldErrorIsAFinish(policy, primary);
    AcceptedPrefix(primary.chunks, |head|);
    UncommittedIsUsage(head);
    RelayOfAccepted(backup.provider.chunks);
    UsageFirstIsInvisible(head, backup.provider.chunks);
    assert Spliced(policy, primary, backup) == head + backup.provider.chunks;
  }

  /** From an accepted backup that does not succeed everything before its failing finish is relayed. */
  lemma RelayOfFailed(cs: seq<Chunk>)
    requires Accepts(cs) && !Succeeds(cs)
    ensures Relay(cs) == BeforeFinish(cs)
  {
    FinishOnlyLast(cs);
    BeforeFinishStops(cs);
    if cs != [] && cs[|cs| - 1].Finish? {
      assert cs[..|cs| - 1] + [cs[|cs| - 1]] == cs;
      RelayAppend(cs[..|cs| - 1], cs[|cs| - 1]);
    } else {
      RelayOfUnfinished(cs);
    }
  }

  /** What the consumer's assembler holds of a backup that does not succeed. */
  function PartialReply(backup: Backup): State
    requires backup.Ready? ==> Accepts(BeforeFinish(backup.provider.chunks))
  {
    if backup.Ready? then Run(BeforeFinish(backup.provider.chunks)).value else Fresh
  }

  lemma RelayOfAcceptedFailure(cs: seq<Chunk>)
    requires Accepts(cs) && !Succeeds(cs)
    ensures Accepts(BeforeFinish(cs)) && Run(BeforeFinish(cs)).value.finish.None?
  {
    RelayOfAccepted(cs);
    RelayOfFailed(cs);
  }

  /** A primary whose error is held back has sent nothing but usage. */
  lemma HeadIsUsage(policy: Policy, primary: Provider)
    requires Accepts(primary.chunks) && HeldError(policy, primary).Some?
    ensures OnlyUsage(BeforeFinish(primary.chunks))
  {
    var head := BeforeFinish(primary.chunks);
    BeforeFinishStops(primary.chunks);
    AcceptedPrefix(primary.chunks, |head|);
    UncommittedIsUsage(head);
  }

  lemma FinishedAfter(head: seq<Chunk>, rest: seq<Chunk>, held: Chunk)
    requires OnlyUsage(head) && Accepts(rest) && Run(rest).value.finish.None? && held.Finish?
    ensures Accepts((head + rest) + [held])
    ensures var s := Run((head + rest) + [held]).value;
      s == Run(rest).value.(finish := Some(held.reason), usage := s.usage)
  {
    UsageFirstIsInvisible(head, rest);
    RunSnoc(head + rest, held);
  }

  /** After a takeover that fails the consumer holds what the backup had sent before its failure, and
      the stream is finished by the primary's error, which is not lost. */
  lemma FailedTakeoverReportsThePrimary(policy: Policy, primary: Provider, backup: Backup)
    requires Accepts(primary.chunks)
    requires backup.Ready? ==> Accepts(backup.provider.chunks) && !Succeeds(backup.provider.chunks)
    requires HeldError(policy, primary).Some? && OutcomeOf(policy, primary, backup) == Returned
    ensures backup.Ready? ==> Accepts(BeforeFinish(backup.provider.chunks))
    ensures HeldError(policy, primary).value.Finish?
    ensures var out := Spliced(policy, primary, backup);
      && Accepts(out)
      && Run(out).value == PartialReply(backup).(finish := Some(HeldError(policy, primary).value.reason),
                                                 usage := Run(out).value.usage)
  {
    var head, held := BeforeFinish(primary.chunks), HeldError(policy, primary).value;
    HeldErrorIsAFinish(policy, primary);
    HeadIsUsage(policy, primary);
    var rest := FromBackup(policy, primary, backup);
    if backup.Ready? {
      RelayOfAcceptedFailure(backup.provider.chunks);
      RelayOfFailed(backup.provider.chunks);
    }
    FinishedAfter(head, rest, held);
    assert Spliced(policy, primary, backup) == (head + rest) + [held];
  }
}
