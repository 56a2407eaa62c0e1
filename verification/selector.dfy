/**
 * The bounded retry loop that asks a provider for a selection plan,
 * validates every answer strictly, and on a rejected answer retries with
 * the rejection as feedback. The provider is a function of the attempt
 * number and the invocation; a ghost history records every invocation sent.
 */
module Selector {

  import opened Wrappers
  import opened Text
  import opened Profiles
  import opened SelectionValidator
  import opened SelectionPrompt

  /** One failed attempt: its number (0 for provider set-up) and why it failed. */
  datatype AttemptError = AttemptError(attempt: nat, message: string)

  /** What one provider call yields: a schema-valid plan, or a provider error's text. */
  datatype ProviderOutcome = Returned(plan: SelectionPlan) | ProviderFailed(reason: string)

  /** Why no plan was produced. */
  datatype SelectionError =
    | InvalidMaxAttempts
    | GenerationFailure(errors: seq<AttemptError>)
  {
    /** The text of the exception raised. */
    function Message(): string {
      match this
      case InvalidMaxAttempts => InvalidMaxAttemptsMessage
      case GenerationFailure(errors) => FailureMessage(errors)
    }
  }

  const InvalidMaxAttemptsMessage: string := "max_attempts must be >= 1"

  /** `attempt {n}: {message}` */
  function AttemptDetail(e: AttemptError): string {
    "attempt " + NatToString(e.attempt) + ": " + e.message
  }

  function AttemptDetails(errors: seq<AttemptError>): (r: seq<string>)
    ensures |r| == |errors|
  {
    seq(|errors|, i requires 0 <= i < |errors| => AttemptDetail(errors[i]))
  }

  /** The message of a `SelectionGenerationFailure`. */
  function FailureMessage(errors: seq<AttemptError>): string {
    "Selection generation failed after " + NatToString(|errors|) + " attempts: "
    + Join(AttemptDetails(errors), "; ")
  }

  /**
   * The failure raised when the provider cannot be set up counts one
   * attempt, numbered 0, carrying the configuration error's message.
   */
  lemma SetupFailureMessage(m: string)
    ensures GenerationFailure([AttemptError(0, m)]).Message() == "Selection generation failed after 1 attempts: attempt 0: " + m
  {
    assert NatToString(1) == "1" && NatToString(0) == "0";
    var d := AttemptDetails([AttemptError(0, m)]);
    assert d[0] == AttemptDetail(AttemptError(0, m)) == "attempt 0: " + m;
    assert d == ["attempt 0: " + m];
  }

  /** How the loop judges one provider outcome. */
  datatype Verdict = Accept(plan: SelectionPlan) | Reject(message: string, feedback: seq<string>)

  /**
   * One attempt's `try`/`except`: a plan is accepted iff strict validation
   * passes. A rejected plan is reported with its validation messages, which
   * become the next feedback; a provider error is reported as such and is
   * itself the next feedback. Any other exception would escape the loop.
   */
  function Judge(p: Profile, o: ProviderOutcome): Verdict {
    match o
    case Returned(plan) =>
      (match Validate(p, plan, true)
       case Success(_) => Accept(plan)
       case Failure(f) => Reject("Selection validation failed: " + Join(f.errors, " | "), f.errors))
    case ProviderFailed(reason) =>
      var m := "Provider failure: " + reason;
      Reject(m, [m])
  }

  /**
   * A plan is accepted, unchanged, iff it has no validation errors; a
   * rejected plan's errors are the feedback and, joined, the message; a
   * provider error is both message and feedback.
   */
  lemma JudgeSpec(p: Profile, o: ProviderOutcome)
    ensures Judge(p, o).Accept? <==> o.Returned? && Errors(p, o.plan) == []
    ensures Judge(p, o).Accept? ==> Judge(p, o).plan == o.plan
    ensures Judge(p, o).Reject? && o.Returned? ==>
      && Judge(p, o).feedback == Errors(p, o.plan)
      && Judge(p, o).message == "Selection validation failed: " + Join(Errors(p, o.plan), " | ")
    ensures Judge(p, o).Reject? && o.ProviderFailed? ==>
      Judge(p, o).message == "Provider failure: " + o.reason && Judge(p, o).feedback == [Judge(p, o).message]
  {
  }

  /** A plan is accepted iff it is consistent with the profile; a rejection always has feedback. */
  lemma JudgeMeaning(p: Profile, o: ProviderOutcome)
    ensures Judge(p, o).Accept? <==> o.Returned? && Consistent(p, o.plan)
    ensures Judge(p, o).Reject? ==> Judge(p, o).feedback != []
  {
    JudgeSpec(p, o);
    if o.Returned? {
      ErrorsEmptyIff(p, o.plan);
    }
  }

  /** The verdict on the answer to the `k`-th invocation sent (attempt `k + 1`). */
  function VerdictAt(p: Profile, respond: (nat, Invocation) -> ProviderOutcome,
                     sent: seq<Invocation>, k: nat): Verdict
    requires k < |sent|
  {
    Judge(p, respond(k + 1, sent[k]))
  }

  /**
   * The invocations were built as the loop builds them: the first without
   * feedback, each later one with exactly the feedback of the attempt
   * before it.
   */
  ghost predicate SentInOrder(p: Profile, job: Job, maxJobChars: int,
                              respond: (nat, Invocation) -> ProviderOutcome, sent: seq<Invocation>) {
    && (sent != [] ==> sent[0] == BuildSelectionInvocation(p, job, [], maxJobChars))
    && forall k :: 0 <= k < |sent| - 1 ==>
         VerdictAt(p, respond, sent, k).Reject? &&
         sent[k + 1] == BuildSelectionInvocation(p, job, VerdictAt(p, respond, sent, k).feedback, maxJobChars)
  }

  /** The text an attempt record carries for a verdict. */
  function RecordMessage(v: Verdict): string {
    if v.Reject? then v.message else ""
  }

  /** The attempt records of a run whose every answer was rejected, numbered from 1. */
  function AttemptRecords(p: Profile, respond: (nat, Invocation) -> ProviderOutcome,
                          sent: seq<Invocation>): (r: seq<AttemptError>)
    ensures |r| == |sent|
    decreases |sent|
  {
    if sent == [] then []
    else
      AttemptRecords(p, respond, sent[..|sent| - 1])
      + [AttemptError(|sent|, RecordMessage(VerdictAt(p, respond, sent, |sent| - 1)))]
  }

  /** The history so far: sent in order, every answer rejected. */
  ghost predicate RejectedRun(p: Profile, job: Job, maxJobChars: int,
                              respond: (nat, Invocation) -> ProviderOutcome, sent: seq<Invocation>) {
    && SentInOrder(p, job, maxJobChars, respond, sent)
    && forall k :: 0 <= k < |sent| ==> VerdictAt(p, respond, sent, k).Reject?
  }

  /** The feedback the next invocation carries: none at first, then the last rejection's. */
  function NextFeedback(p: Profile, respond: (nat, Invocation) -> ProviderOutcome,
                        sent: seq<Invocation>): seq<string> {
    if sent == [] || VerdictAt(p, respond, sent, |sent| - 1).Accept? then []
    else VerdictAt(p, respond, sent, |sent| - 1).feedback
  }

  /**
   * What a run of the attempt loop produced: between one and `maxAttempts`
   * invocations sent in order, and either the plan the last answer held,
   * accepted, or (after exactly `maxAttempts` rejected answers) a failure
   * carrying one record per attempt.
   */
  ghost predicate RunOutcome(p: Profile, job: Job, maxAttempts: int, maxJobChars: int,
                             respond: (nat, Invocation) -> ProviderOutcome,
                             r: Result<SelectionPlan, SelectionError>, sent: seq<Invocation>) {
    && 1 <= |sent| <= maxAttempts
    && SentInOrder(p, job, maxJobChars, respond, sent)
    && (r.Success? ==> VerdictAt(p, respond, sent, |sent| - 1) == Accept(r.value))
    && (r.Failure? ==>
          && r.error.GenerationFailure?
          && |sent| == maxAttempts
          && VerdictAt(p, respond, sent, |sent| - 1).Reject?
          && r.error.errors == AttemptRecords(p, respond, sent))
  }

  /**
   * `generate_selection_plan`. `setup` is the provider the call starts
   * with: an injected client or one resolved from the runtime
   * configuration (`Success`), or the message of the configuration error
   * raised while resolving it (`Failure`).
   */
  method GenerateSelectionPlan(p: Profile, job: Job, maxAttempts: int, maxJobChars: int,
                               setup: Result<(), string>,
                               respond: (nat, Invocation) -> ProviderOutcome)
    returns (r: Result<SelectionPlan, SelectionError>, ghost sent: seq<Invocation>)
    ensures maxAttempts < 1 ==> r == Failure(InvalidMaxAttempts) && sent == []
    ensures maxAttempts >= 1 && setup.Failure? ==>
      r == Failure(GenerationFailure([AttemptError(0, setup.error)])) && sent == []
    ensures maxAttempts >= 1 && setup.Success? ==>
      RunOutcome(p, job, maxAttempts, maxJobChars, respond, r, sent)
    ensures r.Success? ==> Errors(p, r.value) == []
  {
    if maxAttempts < 1 {
      return Failure(InvalidMaxAttempts), [];
    }
    if setup.Failure? {
      return Failure(GenerationFailure([AttemptError(0, setup.error)])), [];
    }
    r, sent := Attempts(p, job, maxAttempts, maxJobChars, respond);
  }

  /** The `for attempt in range(1, max_attempts + 1)` loop and the failure raised after it. */
  method Attempts(p: Profile, job: Job, maxAttempts: int, maxJobChars: int,
                  respond: (nat, Invocation) -> ProviderOutcome)
    returns (r: Result<SelectionPlan, SelectionError>, ghost sent: seq<Invocation>)
    requires maxAttempts >= 1
    ensures RunOutcome(p, job, maxAttempts, maxJobChars, respond, r, sent)
    ensures r.Success? ==> Errors(p, r.value) == []
  {
    sent := [];
    var feedback: seq<string> := [];
    var attemptErrors: seq<AttemptError> := [];
    var attempt := 1;
    while attempt <= maxAttempts
      invariant 1 <= attempt <= maxAttempts + 1
      invariant |sent| == attempt - 1
      invariant RejectedRun(p, job, maxJobChars, respond, sent)
      invariant feedback == NextFeedback(p, respond, sent)
      invariant attemptErrors == AttemptRecords(p, respond, sent)
    {
      var invocation := BuildSelectionInvocation(p, job, feedback, maxJobChars);
      ghost var before := sent;
      sent := sent + [invocation];
      SentStep(p, job, maxJobChars, respond, before, invocation);
      match Judge(p, respond(attempt, invocation)) {
        case Accept(plan) =>
          JudgeSpec(p, respond(attempt, invocation));
          return Success(plan), sent;
        case Reject(message, nextFeedback) =>
          feedback := nextFeedback;
          attemptErrors := attemptErrors + [AttemptError(attempt, message)];
      }
      attempt := attempt + 1;
    }
    return Failure(GenerationFailure(attemptErrors)), sent;
  }

  /**
   * Sending one more invocation, built from the last feedback, keeps the
   * history in order, and if its answer is rejected too, the run stays a
   * rejected run whose next feedback and records come from that answer.
   */
  lemma SentStep(p: Profile, job: Job, maxJobChars: int, respond: (nat, Invocation) -> ProviderOutcome,
                 sent: seq<Invocation>, next: Invocation)
    requires RejectedRun(p, job, maxJobChars, respond, sent)
    requires next == BuildSelectionInvocation(p, job, NextFeedback(p, respond, sent), maxJobChars)
    ensures SentInOrder(p, job, maxJobChars, respond, sent + [next])
    ensures VerdictAt(p, respond, sent + [next], |sent|) == Judge(p, respond(|sent| + 1, next))
    ensures Judge(p, respond(|sent| + 1, next)).Reject? ==>
      && RejectedRun(p, job, maxJobChars, respond, sent + [next])
      && NextFeedback(p, respond, sent + [next]) == Judge(p, respond(|sent| + 1, next)).feedback
      && AttemptRecords(p, respond, sent + [next]) == AttemptRecords(p, respond, sent)
           + [AttemptError(|sent| + 1, Judge(p, respond(|sent| + 1, next)).message)]
  {
    PrefixVerdicts(p, respond, sent, next);
    InOrderStep(p, job, maxJobChars, respond, sent, next);
    RecordsStep(p, respond, sent, next);
  }

  /** Appending an invocation leaves the verdicts on the earlier ones as they were. */
  lemma PrefixVerdicts(p: Profile, respond: (nat, Invocation) -> ProviderOutcome,
                       sent: seq<Invocation>, next: Invocation)
    ensures forall k :: 0 <= k < |sent| ==> VerdictAt(p, respond, sent + [next], k) == VerdictAt(p, respond, sent, k)
  {
    forall k | 0 <= k < |sent|
      ensures VerdictAt(p, respond, sent + [next], k) == VerdictAt(p, respond, sent, k)
    {
      assert (sent + [next])[k] == sent[k];
    }
  }

  /** An invocation built from the last rejection's feedback extends a rejected run in order. */
  lemma InOrderStep(p: Profile, job: Job, maxJobChars: int, respond: (nat, Invocation) -> ProviderOutcome,
                    sent: seq<Invocation>, next: Invocation)
    requires RejectedRun(p, job, maxJobChars, respond, sent)
    requires next == BuildSelectionInvocation(p, job, NextFeedback(p, respond, sent), maxJobChars)
    requires forall k :: 0 <= k < |sent| ==> VerdictAt(p, respond, sent + [next], k) == VerdictAt(p, respond, sent, k)
    ensures SentInOrder(p, job, maxJobChars, respond, sent + [next])
  {
    var s := sent + [next];
    forall k | 0 <= k < |s| - 1
      ensures VerdictAt(p, respond, s, k).Reject?
      ensures s[k + 1] == BuildSelectionInvocation(p, job, VerdictAt(p, respond, s, k).feedback, maxJobChars)
    {
      if k + 1 < |sent| {
        assert s[k + 1] == sent[k + 1];
      }
    }
  }

  /** One more attempt appends its record. */
  lemma RecordsStep(p: Profile, respond: (nat, Invocation) -> ProviderOutcome,
                    sent: seq<Invocation>, next: Invocation)
    ensures AttemptRecords(p, respond, sent + [next]) ==
      AttemptRecords(p, respond, sent) + [AttemptError(|sent| + 1, RecordMessage(Judge(p, respond(|sent| + 1, next))))]
  {
    assert (sent + [next])[..|sent|] == sent;
  }

  /**
   * Feedback is replaced, never accumulated: every retry carries exactly
   * the feedback of the attempt just before it.
   */
  lemma FeedbackReplaced(p: Profile, job: Job, maxJobChars: int,
                         respond: (nat, Invocation) -> ProviderOutcome, sent: seq<Invocation>, k: nat)
    requires SentInOrder(p, job, maxJobChars, respond, sent)
    requires 0 < k < |sent|
    ensures sent[k].payload.retryFeedback == Some(VerdictAt(p, respond, sent, k - 1).feedback)
  {
    assert VerdictAt(p, respond, sent, k - 1).Reject? && sent[k - 1 + 1] == sent[k];
  }

  /** The first attempt goes out without feedback. */
  lemma FirstAttemptWithoutFeedback(p: Profile, job: Job, maxJobChars: int,
                                    respond: (nat, Invocation) -> ProviderOutcome, sent: seq<Invocation>)
    requires SentInOrder(p, job, maxJobChars, respond, sent)
    requires sent != []
    ensures sent[0].payload.retryFeedback.None?
  {
  }

  /** Exhaustion reports one record per attempt, numbered 1 to `maxAttempts` in order. */
  lemma {:induction false} RecordsNumbered(p: Profile, respond: (nat, Invocation) -> ProviderOutcome, sent: seq<Invocation>)
    ensures forall k :: 0 <= k < |sent| ==> AttemptRecords(p, respond, sent)[k].attempt == k + 1
    decreases |sent|
  {
    if sent != [] {
      RecordsNumbered(p, respond, sent[..|sent| - 1]);
    }
  }
}
