/**
 Workflow checkpoints: the stored record of one execution, the check every stored
 checkpoint must pass and the check every update must pass.
 Times are nanoseconds since Go's zero time, so 0 is the zero time.
 */
module Checkpoint {
  import opened Results
  import opened Text

  datatype Principal = Principal(tenantID: string, actorID: string, roles: seq<string>) {
    predicate Valid() {
      !Blank(tenantID) || !Blank(actorID)
    }

    predicate Authenticated() {
      !Blank(tenantID) && !Blank(actorID)
    }
  }

  datatype ExecutionStatus =
    | Running | AwaitingApproval | RecoveryRequired | Completed | Failed | Canceled
    | OtherExecutionStatus(text: string)

  datatype StepStatus =
    | StepPending | StepRunning | StepSkipped | StepAwaitingApproval | StepRecoveryRequired
    | StepCompleted | StepFailed | StepCanceled
    | OtherStepStatus(text: string)

  datatype ErrorInfo = ErrorInfo(kind: string, stepID: string, toolName: string, message: string)

  datatype StepExecution = StepExecution(
    stepID: string, status: StepStatus, attempts: int, output: Option<string>,
    completedAt: nat, error: Option<ErrorInfo>)

  /** JSON objects are kept as maps from field name to encoded value. */
  type Json = map<string, string>

  datatype Execution = Execution(
    id: string, workflowID: string, workflowVersion: int, revision: int, principal: Principal,
    status: ExecutionStatus, input: Json, context: Json, state: Json,
    steps: seq<StepExecution>, nextStep: int, pendingApprovalID: string,
    startedAt: nat, deadlineAt: nat, updatedAt: nat, completedAt: nat, error: Option<ErrorInfo>)

  predicate Terminal(status: ExecutionStatus) {
    status.Completed? || status.Failed? || status.Canceled?
  }

  /** A step status that no transition leaves. */
  predicate Settled(status: StepStatus) {
    status.StepSkipped? || status.StepCompleted? || status.StepFailed? || status.StepCanceled?
  }

  predicate AllowedExecutionTransition(previous: ExecutionStatus, next: ExecutionStatus) {
    previous == next ||
    match previous
    case Running =>
      next.AwaitingApproval? || next.RecoveryRequired? || next.Completed? || next.Failed? || next.Canceled?
    case AwaitingApproval =>
      next.Running? || next.Failed? || next.Canceled?
    case RecoveryRequired =>
      next.Running? || next.Completed? || next.Failed? || next.Canceled?
    case _ => false
  }

  predicate AllowedStepTransition(previous: StepStatus, next: StepStatus) {
    previous == next ||
    match previous
    case StepPending =>
      next.StepRunning? || next.StepSkipped? || next.StepFailed? || next.StepCanceled?
    case StepRunning =>
      next.StepCompleted? || next.StepFailed? || next.StepCanceled? || next.StepAwaitingApproval?
      || next.StepRecoveryRequired?
    case StepAwaitingApproval =>
      next.StepRunning? || next.StepFailed? || next.StepCanceled?
    case StepRecoveryRequired =>
      next.StepRunning? || next.StepCompleted? || next.StepFailed? || next.StepCanceled?
    case _ => false
  }

  // ---- What a stored checkpoint looks like ----

  predicate ValidStep(step: StepExecution) {
    step.stepID != "" && step.attempts >= 0 && !step.status.OtherStepStatus?
  }

  predicate ValidSteps(steps: seq<StepExecution>) {
    && (forall i :: 0 <= i < |steps| ==> ValidStep(steps[i]))
    && (forall i, j :: 0 <= i < j < |steps| ==> steps[i].stepID != steps[j].stepID)
  }

  predicate ValidCheckpoint(e: Execution) {
    && e.id != "" && e.workflowID != "" && e.workflowVersion >= 1
    && e.principal.Authenticated()
    && !e.status.OtherExecutionStatus?
    && e.startedAt != 0 && e.revision >= 1 && e.updatedAt != 0
    && (e.deadlineAt == 0 || e.deadlineAt > e.startedAt)
    && 0 <= e.nextStep <= |e.steps|
    && (e.status.AwaitingApproval? <==> e.pendingApprovalID != "")
    && (e.status.RecoveryRequired? ==> e.error.Some?)
    && (Terminal(e.status) <==> e.completedAt != 0)
    && ValidSteps(e.steps)
  }

  method ValidateCheckpoint(e: Execution) returns (ok: bool)
    ensures ok <==> ValidCheckpoint(e)
  {
    if e.id == "" || e.workflowID == "" || e.workflowVersion < 1 { return false; }
    if !e.principal.Authenticated() { return false; }
    if e.status.OtherExecutionStatus? { return false; }
    if e.startedAt == 0 || e.revision < 1 || e.updatedAt == 0 { return false; }
    if e.deadlineAt != 0 && !(e.deadlineAt > e.startedAt) { return false; }
    if e.nextStep < 0 || e.nextStep > |e.steps| { return false; }
    if e.status.AwaitingApproval? && e.pendingApprovalID == "" { return false; }
    if !e.status.AwaitingApproval? && e.pendingApprovalID != "" { return false; }
    if e.status.RecoveryRequired? && e.error.None? { return false; }
    if Terminal(e.status) != (e.completedAt != 0) { return false; }
    var seen: set<string> := {};
    for i := 0 to |e.steps|
      invariant seen == set j | 0 <= j < i :: e.steps[j].stepID
      invariant ValidSteps(e.steps[..i])
    {
      var step := e.steps[i];
      if step.stepID == "" || step.attempts < 0 {
        assert !ValidStep(e.steps[i]);
        return false;
      }
      if step.stepID in seen { return false; }
      seen := seen + {step.stepID};
      if step.status.OtherStepStatus? {
        assert !ValidStep(e.steps[i]);
        return false;
      }
      assert e.steps[..i + 1] == e.steps[..i] + [step];
    }
    assert e.steps[..|e.steps|] == e.steps;
    return true;
  }

  // ---- What an update may change ----

  predicate SameIdentity(previous: Execution, next: Execution) {
    && previous.id == next.id
    && previous.workflowID == next.workflowID
    && previous.workflowVersion == next.workflowVersion
    && previous.principal == next.principal
    && previous.startedAt == next.startedAt
    && previous.deadlineAt == next.deadlineAt
  }

  predicate StepMayBecome(before: StepExecution, after: StepExecution) {
    && before.stepID == after.stepID
    && after.attempts >= before.attempts
    && AllowedStepTransition(before.status, after.status)
  }

  predicate ValidUpdate(previous: Execution, next: Execution) {
    && SameIdentity(previous, next)
    && previous.input == next.input && previous.context == next.context
    && previous.revision == next.revision
    && !Terminal(previous.status)
    && AllowedExecutionTransition(previous.status, next.status)
    && previous.nextStep <= next.nextStep <= previous.nextStep + 1
    && |previous.steps| == |next.steps|
    && forall i :: 0 <= i < |previous.steps| ==> StepMayBecome(previous.steps[i], next.steps[i])
  }

  /**
   The update would change what is fixed: who and what is executed, or, everything before the
   steps being in order, their number or the id of the first step that is not in order.
   */
  ghost predicate ChangesFixedPart(previous: Execution, next: Execution) {
    || !SameIdentity(previous, next) || previous.input != next.input || previous.context != next.context
    || (previous.revision == next.revision && !Terminal(previous.status)
        && AllowedExecutionTransition(previous.status, next.status)
        && previous.nextStep <= next.nextStep <= previous.nextStep + 1
        && (|previous.steps| != |next.steps| || exists i :: FirstStepRenamed(previous.steps, next.steps, i)))
  }

  ghost predicate FirstStepRenamed(previous: seq<StepExecution>, next: seq<StepExecution>, i: int) {
    && 0 <= i < |previous| && i < |next| && previous[i].stepID != next[i].stepID
    && forall j :: 0 <= j < i ==> StepMayBecome(previous[j], next[j])
  }

  /** The first rejection met by `ValidateExecutionUpdate`, or None when it accepts. */
  method ValidateExecutionUpdate(previous: Execution, next: Execution) returns (rejection: Option<ErrorKind>)
    ensures rejection.None? <==> ValidUpdate(previous, next)
    ensures rejection == Some(ConfigError) <==> ChangesFixedPart(previous, next)
    ensures rejection.Some? && rejection != Some(ConfigError) ==> rejection == Some(ConflictError)
    ensures SameIdentity(previous, next) && previous.input == next.input && previous.context == next.context
            && (previous.revision != next.revision || Terminal(previous.status))
            ==> rejection == Some(ConflictError)
  {
    if !SameIdentity(previous, next) { return Some(ConfigError); }
    if previous.input != next.input || previous.context != next.context { return Some(ConfigError); }
    if previous.revision != next.revision { return Some(ConflictError); }
    if Terminal(previous.status) { return Some(ConflictError); }
    if !AllowedExecutionTransition(previous.status, next.status) { return Some(ConflictError); }
    if next.nextStep < previous.nextStep || next.nextStep > previous.nextStep + 1 { return Some(ConflictError); }
    if |previous.steps| != |next.steps| { return Some(ConfigError); }
    for i := 0 to |previous.steps|
      invariant forall j :: 0 <= j < i ==> StepMayBecome(previous.steps[j], next.steps[j])
    {
      var before, after := previous.steps[i], next.steps[i];
      assert StepMayBecome(previous.steps[i], next.steps[i]) <==> StepMayBecome(before, after);
      if before.stepID != after.stepID {
        assert FirstStepRenamed(previous.steps, next.steps, i);
        return Some(ConfigError);
      }
      if after.attempts < before.attempts { return Some(ConflictError); }
      if !AllowedStepTransition(before.status, after.status) { return Some(ConflictError); }
    }
    return None;
  }

  // ---- What holds between two checkpoints any number of updates apart ----

  predicate StepEvolves(before: StepExecution, after: StepExecution) {
    && before.stepID == after.stepID
    && after.attempts >= before.attempts
    && (Settled(before.status) ==> after.status == before.status)
  }

  /** `later` may be reached from `earlier` by accepted updates. */
  predicate Evolves(earlier: Execution, later: Execution) {
    && SameIdentity(earlier, later)
    && earlier.input == later.input && earlier.context == later.context
    && earlier.revision <= later.revision
    && 0 <= later.nextStep - earlier.nextStep <= later.revision - earlier.revision
    && |earlier.steps| == |later.steps|
    && (forall i :: 0 <= i < |earlier.steps| ==> StepEvolves(earlier.steps[i], later.steps[i]))
    && (Terminal(earlier.status) ==> later == earlier)
  }

  lemma EvolvesReflexive(e: Execution)
    ensures Evolves(e, e)
  {}

  lemma EvolvesTransitive(a: Execution, b: Execution, c: Execution)
    requires Evolves(a, b) && Evolves(b, c)
    ensures Evolves(a, c)
  {
    forall i | 0 <= i < |a.steps|
      ensures StepEvolves(a.steps[i], c.steps[i])
    {
      assert StepEvolves(a.steps[i], b.steps[i]) && StepEvolves(b.steps[i], c.steps[i]);
    }
  }

  /** One accepted update, stored under the next revision, is one evolution step. */
  lemma UpdateEvolves(previous: Execution, next: Execution, updatedAt: nat)
    requires ValidUpdate(previous, next)
    ensures Evolves(previous, next.(revision := next.revision + 1, updatedAt := updatedAt))
  {
    var stored := next.(revision := next.revision + 1, updatedAt := updatedAt);
    forall i | 0 <= i < |previous.steps|
      ensures StepEvolves(previous.steps[i], stored.steps[i])
    {
      assert StepMayBecome(previous.steps[i], next.steps[i]);
    }
  }
}
