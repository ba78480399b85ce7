/**
 The checkpoints that recovery, cancellation, expiration and the coordinator write, and
 when the store's two checks accept them. `now` is the executor's clock. Each operation is
 given a checkpoint, acquires the execution and works on from then on with what the claim
 returned: `acquired` is that checkpoint, or the given one when the executor takes no leases,
 or the error of the claim.
 */
module Recovery {
  import opened Results
  import opened Text
  import opened Checkpoint
  import opened LeaseHistory
  import opened ExecutionStore

  datatype StepKind = ToolStep | ValidationStep | ApprovalStep

  datatype VersionStep = VersionStep(id: string, kind: StepKind, toolName: string)

  datatype Version = Version(workflowID: string, version: int, steps: seq<VersionStep>)

  datatype RecoveryDecision =
    | ConfirmedCompleted | ConfirmedNotRun | Compensated | RecoveryCanceled
    | OtherDecision(text: string)

  datatype RecoveryRequest = RecoveryRequest(
    decision: RecoveryDecision, stepID: string, output: string, reason: string, evidenceCode: string)

  /** What the tool registry answers: is the tool known, and does the output pass its checks. */
  datatype ToolAnswer = ToolAnswer(known: bool, outputAccepted: bool, sideEffects: bool)

  predicate EvidenceChar(c: char) {
    'a' <= c <= 'z' || 'A' <= c <= 'Z' || '0' <= c <= '9' || c in "._:/-"
  }

  predicate ValidEvidence(code: string) {
    code != "" && |code| <= 256 && forall c :: c in code ==> EvidenceChar(c)
  }

  predicate SameActor(a: Principal, b: Principal) {
    a.tenantID == b.tenantID && a.actorID == b.actorID
  }

  // ---- What is written ----

  function CurrentStep(c: Execution): StepExecution
    requires 0 <= c.nextStep < |c.steps|
  {
    c.steps[c.nextStep]
  }

  function WithStep(c: Execution, run: StepExecution): Execution
    requires 0 <= c.nextStep < |c.steps|
  {
    c.(steps := c.steps[c.nextStep := run])
  }

  function RecoveryError(step: VersionStep, request: RecoveryRequest): ErrorInfo {
    var canceled := request.decision.RecoveryCanceled?;
    ErrorInfo(if canceled then "abort" else "workflow", step.id, step.toolName,
              "uncertain execution " + (if canceled then "canceled" else "compensated") + ": "
              + TrimSpace(request.reason))
  }

  /** The resolution of an uncertain tool step. */
  function Resolved(c: Execution, step: VersionStep, request: RecoveryRequest, now: nat): Execution
    requires 0 <= c.nextStep < |c.steps|
  {
    var run := CurrentStep(c);
    match request.decision
    case ConfirmedCompleted =>
      WithStep(c, run.(output := Some(request.output), status := StepCompleted, completedAt := now))
        .(state := c.state[step.id := request.output], status := Running, error := None, nextStep := c.nextStep + 1)
    case ConfirmedNotRun =>
      WithStep(c, run.(status := StepRunning, error := None)).(status := Running, error := None)
    case _ =>
      var error := Some(RecoveryError(step, request));
      WithStep(c, run.(status := StepFailed, completedAt := now, error := error))
        .(status := if request.decision.RecoveryCanceled? then Canceled else Failed, completedAt := now, error := error)
  }

  predicate Cancelable(status: StepStatus) {
    status.StepPending? || status.StepRunning? || status.StepAwaitingApproval? || status.StepRecoveryRequired?
  }

  /** A canceled or expired execution; any pending approval has been settled before. */
  function CanceledCheckpoint(c: Execution, kind: string, reason: string, now: nat): Execution {
    var error := Some(ErrorInfo(kind, "", "", reason));
    var ended := c.(pendingApprovalID := "", status := Canceled, completedAt := now, error := error);
    if 0 <= c.nextStep < |c.steps| && Cancelable(c.steps[c.nextStep].status)
    then WithStep(ended, c.steps[c.nextStep].(status := StepCanceled, completedAt := now, error := error))
    else ended
  }

  const INTERRUPTED := "worker stopped while a side-effecting tool call was in flight"

  /** The checkpoint of an execution whose worker stopped inside a side-effecting call. */
  function InterruptedCheckpoint(c: Execution, step: VersionStep): Execution
    requires 0 <= c.nextStep < |c.steps|
  {
    var error := Some(ErrorInfo("workflow", step.id, step.toolName, INTERRUPTED));
    WithStep(c, CurrentStep(c).(status := StepRecoveryRequired, error := error))
      .(status := RecoveryRequired, error := error)
  }

  /** Everything but the state, the current step and how the execution stands. */
  predicate SameRecord(c: Execution, next: Execution) {
    && next.(state := c.state, steps := c.steps, nextStep := c.nextStep, status := c.status, completedAt := c.completedAt,
             error := c.error, pendingApprovalID := c.pendingApprovalID) == c
    && |next.steps| == |c.steps|
    && forall i :: 0 <= i < |c.steps| && i != c.nextStep ==> next.steps[i] == c.steps[i]
  }

  /**
   What each decision makes of an uncertain step: a confirmed output is the step's and reaches
   the state under the step's name, and the run goes on behind it; a call that did not run is
   made again; a compensated execution has failed and a canceled one is canceled, both with
   their step failed.
   */
  lemma ResolutionTells(c: Execution, step: VersionStep, request: RecoveryRequest, now: nat)
    requires 0 <= c.nextStep < |c.steps|
    ensures var next := Resolved(c, step, request, now);
            var run, was := next.steps[c.nextStep], c.steps[c.nextStep];
            && SameRecord(c, next) && next.pendingApprovalID == c.pendingApprovalID
            && run.stepID == was.stepID && run.attempts == was.attempts
            && (request.decision.ConfirmedCompleted? ==>
                  && next.status.Running? && next.error == None && next.nextStep == c.nextStep + 1
                  && next.state == c.state[step.id := request.output]
                  && run.status.StepCompleted? && run.output == Some(request.output) && run.completedAt == now)
            && (request.decision.ConfirmedNotRun? ==>
                  && next.status.Running? && next.error == None && next.nextStep == c.nextStep && next.state == c.state
                  && run.status.StepRunning? && run.error == None && run.output == was.output)
            && (request.decision.Compensated? ==> next.status.Failed? && next.error.Some? && next.error.value.kind == "workflow")
            && (request.decision.RecoveryCanceled?
                ==> next.status.Canceled? && next.error.Some? && next.error.value.kind == "abort")
            && (request.decision.Compensated? || request.decision.RecoveryCanceled? ==>
                  && next.nextStep == c.nextStep && next.state == c.state && next.completedAt == now
                  && run.status.StepFailed? && run.completedAt == now && run.error == next.error
                  && next.error.value.stepID == step.id && next.error.value.toolName == step.toolName)
  {
    hide TrimSpace;
  }

  /** The stored error says which of the two it was, and the reason given. */
  lemma ResolutionGivesReason(c: Execution, step: VersionStep, request: RecoveryRequest, now: nat)
    requires 0 <= c.nextStep < |c.steps| && (request.decision.Compensated? || request.decision.RecoveryCanceled?)
    ensures Resolved(c, step, request, now).error.Some?
    ensures Resolved(c, step, request, now).error.value.message ==
            (if request.decision.Compensated? then "uncertain execution compensated: " else "uncertain execution canceled: ")
            + TrimSpace(request.reason)
  {
    hide TrimSpace, WithStep;
    assert "uncertain execution " + "compensated" + ": " == "uncertain execution compensated: ";
    assert "uncertain execution " + "canceled" + ": " == "uncertain execution canceled: ";
  }

  /** A canceled or expired execution: only its current step ends with it, and only if it was still open. */
  lemma CancellationTells(c: Execution, kind: string, reason: string, now: nat)
    ensures var next := CanceledCheckpoint(c, kind, reason, now);
            && SameRecord(c, next) && next.state == c.state && next.nextStep == c.nextStep
            && next.status.Canceled? && next.completedAt == now && next.pendingApprovalID == ""
            && next.error == Some(ErrorInfo(kind, "", "", reason))
            && (0 <= c.nextStep < |c.steps| ==>
                  var run, was := next.steps[c.nextStep], c.steps[c.nextStep];
                  && run.stepID == was.stepID && run.attempts == was.attempts && run.output == was.output
                  && (Settled(was.status) ==> run == was)
                  && (was.status in {StepPending, StepRunning, StepAwaitingApproval, StepRecoveryRequired} ==>
                        run.status.StepCanceled? && run.completedAt == now && run.error == next.error))
  {}

  /** A run interrupted in a call with side effects waits for recovery at that step, and says so in both places. */
  lemma InterruptionTells(c: Execution, step: VersionStep)
    requires 0 <= c.nextStep < |c.steps|
    ensures var next := InterruptedCheckpoint(c, step);
            var run, was := next.steps[c.nextStep], c.steps[c.nextStep];
            && SameRecord(c, next) && next.state == c.state && next.nextStep == c.nextStep
            && next.completedAt == c.completedAt && next.pendingApprovalID == c.pendingApprovalID
            && next.status.RecoveryRequired? && run.status.StepRecoveryRequired?
            && next.error == Some(ErrorInfo("workflow", step.id, step.toolName, INTERRUPTED)) && run.error == next.error
            && run.stepID == was.stepID && run.attempts == was.attempts && run.output == was.output
  {}

  // ---- When it is written ----

  predicate Recoverable(version: Version, c: Execution, stepID: string) {
    && c.workflowID == version.workflowID && c.workflowVersion == version.version
    && |c.steps| == |version.steps|
    && (c.status.Running? || c.status.RecoveryRequired?)
    && 0 <= c.nextStep < |version.steps|
    && version.steps[c.nextStep].kind.ToolStep?
    && (c.steps[c.nextStep].status.StepRunning? || c.steps[c.nextStep].status.StepRecoveryRequired?)
    && stepID == version.steps[c.nextStep].id
  }

  predicate BoundedReason(reason: string) {
    TrimSpace(reason) != "" && |TrimSpace(reason)| <= 4096
  }

  /** The initiating actor of the checkpoint that is passed in, in a context of their own. */
  predicate Initiator(principal: Principal, authenticated: Principal, given: Execution) {
    principal.Authenticated() && SameActor(principal, given.principal) && SameActor(authenticated, principal)
  }

  predicate MayResolve(version: Version, c: Execution, request: RecoveryRequest, tool: ToolAnswer) {
    && Recoverable(version, c, request.stepID) && BoundedReason(request.reason)
    && (TrimSpace(request.evidenceCode) == "" || ValidEvidence(TrimSpace(request.evidenceCode)))
    && tool.known && !request.decision.OtherDecision?
    && (request.decision.ConfirmedCompleted? ==> tool.outputAccepted)
  }

  /** The kind of the first check that the claimed checkpoint or the request fails. */
  function ResolveRefusal(version: Version, c: Execution, request: RecoveryRequest, tool: ToolAnswer): ErrorKind {
    if c.workflowID != version.workflowID || c.workflowVersion != version.version || |c.steps| != |version.steps|
    then ValidationError
    else if !Recoverable(version, c, request.stepID) then ConflictError
    else if BoundedReason(request.reason) && !tool.known
            && (TrimSpace(request.evidenceCode) == "" || ValidEvidence(TrimSpace(request.evidenceCode))) then NotFoundError
    else ValidationError
  }

  /** What a resolution asks for, in full. */
  lemma ResolvableIff(version: Version, c: Execution, request: RecoveryRequest, tool: ToolAnswer)
    ensures MayResolve(version, c, request, tool) <==>
            && c.workflowID == version.workflowID && c.workflowVersion == version.version && |c.steps| == |version.steps|
            && (c.status.Running? || c.status.RecoveryRequired?) && 0 <= c.nextStep < |c.steps|
            && (c.steps[c.nextStep].status.StepRunning? || c.steps[c.nextStep].status.StepRecoveryRequired?)
            && version.steps[c.nextStep].kind.ToolStep? && request.stepID == version.steps[c.nextStep].id
            && 0 < |TrimSpace(request.reason)| <= 4096
            && |TrimSpace(request.evidenceCode)| <= 256
            && (forall ch :: ch in TrimSpace(request.evidenceCode) ==>
                  'a' <= ch <= 'z' || 'A' <= ch <= 'Z' || '0' <= ch <= '9' || ch in {'.', '_', ':', '/', '-'})
            && tool.known
            && (request.decision.ConfirmedNotRun? || request.decision.Compensated? || request.decision.RecoveryCanceled?
                || (request.decision.ConfirmedCompleted? && tool.outputAccepted))
  {
    EvidenceChars(TrimSpace(request.evidenceCode));
    hide TrimSpace, EvidenceChar;
  }

  lemma EvidenceChars(code: string)
    ensures ValidEvidence(code) <==>
            && 0 < |code| <= 256
            && forall ch :: ch in code ==>
                 'a' <= ch <= 'z' || 'A' <= ch <= 'Z' || '0' <= ch <= '9' || ch in {'.', '_', ':', '/', '-'}
  {}

  /**
   How the first failing check is reported: another version or number of steps as invalid, an
   execution or step that is not to be recovered as a conflict, a tool that is gone as not
   found, everything else as invalid.
   */
  lemma RefusalTells(version: Version, c: Execution, request: RecoveryRequest, tool: ToolAnswer)
    requires !MayResolve(version, c, request, tool)
    ensures var kind := ResolveRefusal(version, c, request, tool);
            var comparable := c.workflowID == version.workflowID && c.workflowVersion == version.version
                              && |c.steps| == |version.steps|;
            && (kind == ConflictError <==> comparable && !Recoverable(version, c, request.stepID))
            && (kind == NotFoundError <==>
                  Recoverable(version, c, request.stepID) && !tool.known
                  && 0 < |TrimSpace(request.reason)| <= 4096
                  && (TrimSpace(request.evidenceCode) == "" || ValidEvidence(TrimSpace(request.evidenceCode))))
            && (kind != ConflictError && kind != NotFoundError ==> kind == ValidationError)
  {
    hide TrimSpace, ValidEvidence;
  }

  predicate CancelReason(reason: string) {
    BoundedReason(reason) && '\0' !in TrimSpace(reason)
  }

  predicate MayCancel(principal: Principal, authenticated: Principal, given: Execution, reason: string) {
    && Initiator(principal, authenticated, given) && authenticated.Authenticated()
    && CancelReason(reason) && !Terminal(given.status)
  }

  /** Canceling is for the initiator, on a checkpoint that has not ended, with a reason of bounded length and no NUL. */
  lemma CancelableIff(principal: Principal, authenticated: Principal, given: Execution, reason: string)
    ensures MayCancel(principal, authenticated, given, reason) <==>
            && principal.tenantID == authenticated.tenantID == given.principal.tenantID
            && principal.actorID == authenticated.actorID == given.principal.actorID
            && !Blank(given.principal.tenantID) && !Blank(given.principal.actorID)
            && 0 < |TrimSpace(reason)| <= 4096
            && (forall i :: 0 <= i < |TrimSpace(reason)| ==> TrimSpace(reason)[i] as int != 0)
            && !given.status.Completed? && !given.status.Failed? && !given.status.Canceled?
  {
    hide Blank, TrimSpace;
    var text := TrimSpace(reason);
    assert ('\0' as int) == 0;
    assert forall i :: 0 <= i < |text| ==> (text[i] as int == 0 <==> text[i] == '\0');
  }

  method Recover(principal: Principal, authenticated: Principal, version: Version, given: Execution,
                 acquired: Result<Execution>, request: RecoveryRequest, tool: ToolAnswer, now: nat)
    returns (r: Result<Execution>)
    ensures r.Ok? <==> Initiator(principal, authenticated, given) && acquired.Ok?
                       && MayResolve(version, acquired.value, request, tool)
    ensures r.Ok? ==> r.value == Resolved(acquired.value, version.steps[acquired.value.nextStep], request, now)
    ensures !Initiator(principal, authenticated, given) ==> r == Err(PermissionError)
    ensures Initiator(principal, authenticated, given) && acquired.Err? ==> r == acquired
    ensures Initiator(principal, authenticated, given) && acquired.Ok? && r.Err? ==>
              r.error == ResolveRefusal(version, acquired.value, request, tool)
  {
    hide Blank, TrimSpace, ValidEvidence;
    if !principal.Authenticated() || !SameActor(principal, given.principal) { return Err(PermissionError); }
    if !SameActor(authenticated, principal) { return Err(PermissionError); }
    if acquired.Err? { return acquired; }
    var checkpoint := acquired.value;
    if checkpoint.workflowID != version.workflowID || checkpoint.workflowVersion != version.version {
      return Err(ValidationError);
    }
    if |checkpoint.steps| != |version.steps| { return Err(ValidationError); }
    if (!checkpoint.status.Running? && !checkpoint.status.RecoveryRequired?)
       || checkpoint.nextStep < 0 || checkpoint.nextStep >= |version.steps| {
      return Err(ConflictError);
    }
    var step := version.steps[checkpoint.nextStep];
    var run := checkpoint.steps[checkpoint.nextStep];
    if !step.kind.ToolStep? || (!run.status.StepRunning? && !run.status.StepRecoveryRequired?)
       || request.stepID != step.id {
      return Err(ConflictError);
    }
    var reason := TrimSpace(request.reason);
    if reason == "" || |reason| > 4096 { return Err(ValidationError); }
    var evidence := TrimSpace(request.evidenceCode);
    if evidence != "" && !ValidEvidence(evidence) { return Err(ValidationError); }
    if !tool.known { return Err(NotFoundError); }
    match request.decision {
      case ConfirmedCompleted =>
        if !tool.outputAccepted { return Err(ValidationError); }
        run := run.(output := Some(request.output), status := StepCompleted, completedAt := now);
        checkpoint := checkpoint.(state := checkpoint.state[step.id := request.output], status := Running,
                                  error := None, steps := checkpoint.steps[checkpoint.nextStep := run]);
        checkpoint := checkpoint.(nextStep := checkpoint.nextStep + 1);
      case ConfirmedNotRun =>
        run := run.(status := StepRunning, error := None);
        checkpoint := checkpoint.(status := Running, error := None,
                                  steps := checkpoint.steps[checkpoint.nextStep := run]);
      case OtherDecision(_) =>
        return Err(ValidationError);
      case _ =>
        var status, kind, outcome := Failed, "workflow", "compensated";
        if request.decision.RecoveryCanceled? {
          status, kind, outcome := Canceled, "abort", "canceled";
        }
        var error := Some(ErrorInfo(kind, step.id, step.toolName, "uncertain execution " + outcome + ": " + reason));
        run := run.(status := StepFailed, completedAt := now, error := error);
        checkpoint := checkpoint.(status := status, completedAt := now, error := error,
                                  steps := checkpoint.steps[checkpoint.nextStep := run]);
    }
    return Ok(checkpoint);
  }

  method CancelCheckpoint(execution: Execution, kind: string, reason: string, now: nat) returns (ended: Execution)
    requires execution.pendingApprovalID == ""
    ensures ended == CanceledCheckpoint(execution, kind, reason, now)
  {
    ended := execution.(status := Canceled, completedAt := now, error := Some(ErrorInfo(kind, "", "", reason)));
    if ended.nextStep >= 0 && ended.nextStep < |ended.steps| {
      var step := ended.steps[ended.nextStep];
      match step.status {
        case StepPending | StepRunning | StepAwaitingApproval | StepRecoveryRequired =>
          step := step.(status := StepCanceled, completedAt := now, error := ended.error);
        case _ =>
      }
      ended := ended.(steps := ended.steps[ended.nextStep := step]);
    }
  }

  /** `settles` is what the approval store answers when a pending approval is to be canceled. */
  method Cancel(principal: Principal, authenticated: Principal, given: Execution, acquired: Result<Execution>,
                reason: string, settles: Result<()>, now: nat) returns (r: Result<Execution>)
    ensures r.Ok? <==> MayCancel(principal, authenticated, given, reason) && acquired.Ok?
                       && (acquired.value.pendingApprovalID != "" ==> settles.Ok?)
    ensures r.Ok? ==> r.value == CanceledCheckpoint(acquired.value, "abort", TrimSpace(reason), now)
    ensures !(Initiator(principal, authenticated, given) && authenticated.Authenticated()) ==> r == Err(PermissionError)
    ensures Initiator(principal, authenticated, given) && authenticated.Authenticated() ==>
              && (!CancelReason(reason) ==> r == Err(ValidationError))
              && (CancelReason(reason) && Terminal(given.status) ==> r == Err(ConflictError))
    ensures MayCancel(principal, authenticated, given, reason) ==>
              && (acquired.Err? ==> r == acquired)
              && (acquired.Ok? && r.Err? ==> settles == Err(r.error))
  {
    hide Blank, TrimSpace;
    if !principal.Authenticated() || !authenticated.Authenticated() || !SameActor(authenticated, principal)
       || !SameActor(principal, given.principal) {
      return Err(PermissionError);
    }
    var trimmed := TrimSpace(reason);
    if trimmed == "" || |trimmed| > 4096 || '\0' in trimmed { return Err(ValidationError); }
    if Terminal(given.status) { return Err(ConflictError); }
    if acquired.Err? { return acquired; }
    var checkpoint := acquired.value;
    if checkpoint.pendingApprovalID != "" {
      if settles.Err? { return Err(settles.error); }
      checkpoint := checkpoint.(pendingApprovalID := "");
    }
    var ended := CancelCheckpoint(checkpoint, "abort", trimmed, now);
    return Ok(ended);
  }

  method ExpireExecution(execution: Execution, reason: string, settles: Result<()>, now: nat) returns (r: Result<Execution>)
    ensures r.Ok? <==> (execution.pendingApprovalID != "" ==> settles.Ok?)
    ensures r.Ok? ==> r.value == CanceledCheckpoint(execution, "timeout", reason, now)
    ensures r.Err? ==> settles == Err(r.error)
  {
    var checkpoint := execution;
    if checkpoint.pendingApprovalID != "" {
      if settles.Err? { return Err(settles.error); }
      checkpoint := checkpoint.(pendingApprovalID := "");
    }
    var ended := CancelCheckpoint(checkpoint, "timeout", reason, now);
    return Ok(ended);
  }

  // ---- Resumption of an interrupted run ----

  datatype Resumption =
    | Refused(error: ErrorKind)
    | GoesOn(checkpoint: Execution)
    | AsksForRecovery(checkpoint: Execution)
    | Panics

  predicate SameVersion(version: Version, c: Execution) {
    c.workflowID == version.workflowID && c.workflowVersion == version.version
  }

  /** The version has a step at the checkpoint's position; only its number of steps bounds that position. */
  predicate StepsAhead(version: Version, c: Execution) {
    c.nextStep < |version.steps|
  }

  predicate NoSuchStep(c: Execution) {
    c.nextStep < 0 || c.nextStep >= |c.steps|
  }

  /** The worker stopped inside a tool call. */
  predicate Interrupted(version: Version, c: Execution) {
    && StepsAhead(version, c) && !NoSuchStep(c)
    && c.steps[c.nextStep].status.StepRunning? && version.steps[c.nextStep].kind.ToolStep?
  }

  predicate MayResume(authenticated: Principal, version: Version, given: Execution) {
    && given.principal.Authenticated() && authenticated.Authenticated() && SameActor(authenticated, given.principal)
    && SameVersion(version, given)
  }

  /** Inside a call means: the step that is current in both is a tool step, and its run has begun and not ended. */
  lemma InterruptedIff(version: Version, c: Execution)
    ensures Interrupted(version, c) <==>
            exists i :: i == c.nextStep && 0 <= i < |c.steps| && i < |version.steps|
                        && c.steps[i].status == StepRunning && version.steps[i].kind == ToolStep
  {}

  /**
   Recovery and cancellation are for the one whose tenant and actor the checkpoint names, in
   person and in the context; a run is resumed in such a context and under its own version.
   */
  lemma OnlyItsInitiator(principal: Principal, authenticated: Principal, version: Version, given: Execution)
    ensures Initiator(principal, authenticated, given) <==>
            && principal.tenantID == authenticated.tenantID == given.principal.tenantID
            && principal.actorID == authenticated.actorID == given.principal.actorID
            && !Blank(given.principal.tenantID) && !Blank(given.principal.actorID)
    ensures MayResume(authenticated, version, given) <==>
            && authenticated.tenantID == given.principal.tenantID && authenticated.actorID == given.principal.actorID
            && !Blank(given.principal.tenantID) && !Blank(given.principal.actorID)
            && given.workflowID == version.workflowID && given.workflowVersion == version.version
  {
    hide Blank;
  }

  /** `catalog` is the outcome of the checks that the version's tools and references are registered. */
  method ResumeInterrupted(authenticated: Principal, version: Version, given: Execution, acquired: Result<Execution>,
                           catalog: Result<()>, tool: ToolAnswer) returns (r: Resumption)
    ensures !MayResume(authenticated, version, given) ==>
              r == Refused(if given.principal.Authenticated() && authenticated.Authenticated()
                              && SameActor(authenticated, given.principal) then ValidationError else PermissionError)
    ensures MayResume(authenticated, version, given) ==>
              && (acquired.Err? ==> r == Refused(acquired.error))
              && (acquired.Ok? && catalog.Err? ==> r == Refused(catalog.error))
    ensures MayResume(authenticated, version, given) && acquired.Ok? && catalog.Ok? ==>
              var c := acquired.value;
              && (r.Panics? <==> StepsAhead(version, c) && NoSuchStep(c))
              && (r.Refused? <==> Interrupted(version, c) && !tool.known)
              && (r.Refused? ==> r.error == NotFoundError)
              && (r.AsksForRecovery? <==> Interrupted(version, c) && tool.known && tool.sideEffects)
              && (r.AsksForRecovery? ==> r.checkpoint == InterruptedCheckpoint(c, version.steps[c.nextStep]))
              && (r.GoesOn? ==> r.checkpoint == c)
  {
    hide Blank;
    if !given.principal.Authenticated() || !authenticated.Authenticated() || !SameActor(authenticated, given.principal) {
      return Refused(PermissionError);
    }
    if given.workflowID != version.workflowID || given.workflowVersion != version.version {
      return Refused(ValidationError);
    }
    if acquired.Err? { return Refused(acquired.error); }
    var checkpoint := acquired.value;
    if catalog.Err? { return Refused(catalog.error); }
    if checkpoint.nextStep < |version.steps| {
      if checkpoint.nextStep < 0 || checkpoint.nextStep >= |checkpoint.steps| { return Panics; }
      var step := version.steps[checkpoint.nextStep];
      var run := checkpoint.steps[checkpoint.nextStep];
      if run.status.StepRunning? && step.kind.ToolStep? {
        if !tool.known { return Refused(NotFoundError); }
        if tool.sideEffects {
          run := run.(status := StepRecoveryRequired,
                      error := Some(ErrorInfo("workflow", step.id, step.toolName, INTERRUPTED)));
          checkpoint := checkpoint.(status := RecoveryRequired, error := run.error,
                                    steps := checkpoint.steps[checkpoint.nextStep := run]);
          return AsksForRecovery(checkpoint);
        }
      }
    }
    return GoesOn(checkpoint);
  }

  /** From a valid checkpoint the resumption panics exactly when all its steps are done and the version has more. */
  lemma PanicsIffVersionHasMoreSteps(version: Version, c: Execution)
    requires ValidCheckpoint(c)
    ensures StepsAhead(version, c) && NoSuchStep(c) <==> c.nextStep == |c.steps| < |version.steps|
  {
    hide ValidSteps, Blank;
  }

  // ---- The store accepts it ----

  /** Both checks of the store: the update against the stored checkpoint, and what would be stored. */
  predicate StoreAccepts(stored: Execution, next: Execution, stamp: nat) {
    ValidUpdate(stored, next) && ValidCheckpoint(Stored(next, stamp))
  }

  /** Changing the current step keeps the step list valid when the step stays itself. */
  lemma WithStepKeepsSteps(steps: seq<StepExecution>, at: nat, run: StepExecution)
    requires ValidSteps(steps) && at < |steps|
    requires run.stepID == steps[at].stepID && run.attempts == steps[at].attempts && !run.status.OtherStepStatus?
    ensures ValidSteps(steps[at := run])
  {
    var after := steps[at := run];
    forall i | 0 <= i < |after|
      ensures ValidStep(after[i])
    {
      assert ValidStep(steps[i]);
    }
    forall i, j | 0 <= i < j < |after|
      ensures after[i].stepID != after[j].stepID
    {
      assert steps[i].stepID != steps[j].stepID;
    }
  }

  lemma WithStepUpdates(steps: seq<StepExecution>, at: nat, run: StepExecution)
    requires at < |steps| && StepMayBecome(steps[at], run)
    ensures forall i :: 0 <= i < |steps| ==> StepMayBecome(steps[i], steps[at := run][i])
  {}

  predicate Uncertain(c: Execution) {
    && (c.status.Running? || c.status.RecoveryRequired?) && 0 <= c.nextStep < |c.steps|
    && (c.steps[c.nextStep].status.StepRunning? || c.steps[c.nextStep].status.StepRecoveryRequired?)
  }

  lemma ResolvedUpdates(c: Execution, step: VersionStep, request: RecoveryRequest, now: nat)
    requires Uncertain(c)
    ensures ValidUpdate(c, Resolved(c, step, request, now))
  {
    hide RecoveryError;
    var next := Resolved(c, step, request, now);
    WithStepUpdates(c.steps, c.nextStep, next.steps[c.nextStep]);
  }

  lemma ResolvedIsValid(c: Execution, step: VersionStep, request: RecoveryRequest, now: nat, stamp: nat)
    requires ValidCheckpoint(c) && Uncertain(c) && now != 0 && stamp != 0
    ensures ValidCheckpoint(Stored(Resolved(c, step, request, now), stamp))
  {
    hide Blank, TrimSpace, ValidSteps, RecoveryError;
    var run := CurrentStep(c);
    var error := Some(RecoveryError(step, request));
    match request.decision
    case ConfirmedCompleted =>
      WithStepKeepsSteps(c.steps, c.nextStep, run.(output := Some(request.output), status := StepCompleted, completedAt := now));
    case ConfirmedNotRun =>
      WithStepKeepsSteps(c.steps, c.nextStep, run.(status := StepRunning, error := None));
    case _ =>
      WithStepKeepsSteps(c.steps, c.nextStep, run.(status := StepFailed, completedAt := now, error := error));
  }

  /** Whatever the decision, the checkpoint `Recover` writes passes both checks. */
  lemma RecoveryIsAccepted(version: Version, c: Execution, request: RecoveryRequest, tool: ToolAnswer, now: nat, stamp: nat)
    requires ValidCheckpoint(c) && now != 0 && stamp != 0
    requires MayResolve(version, c, request, tool)
    ensures StoreAccepts(c, Resolved(c, version.steps[c.nextStep], request, now), stamp)
    ensures var next := Resolved(c, version.steps[c.nextStep], request, now);
            next.nextStep == c.nextStep + (if request.decision.ConfirmedCompleted? then 1 else 0)
  {
    hide Blank, ValidEvidence, TrimSpace, ValidCheckpoint, ValidUpdate;
    ResolvedUpdates(c, version.steps[c.nextStep], request, now);
    ResolvedIsValid(c, version.steps[c.nextStep], request, now, stamp);
  }

  lemma CanceledUpdates(c: Execution, kind: string, reason: string, now: nat)
    requires 0 <= c.nextStep && !c.status.OtherExecutionStatus?
    ensures ValidUpdate(c, CanceledCheckpoint(c, kind, reason, now)) <==> !Terminal(c.status)
  {
    var next := CanceledCheckpoint(c, kind, reason, now);
    if c.nextStep < |c.steps| && !Terminal(c.status) {
      WithStepUpdates(c.steps, c.nextStep, next.steps[c.nextStep]);
    }
  }

  /** A cancellation or expiration passes both checks exactly when the execution has not ended. */
  lemma CancellationAcceptedIffOpen(c: Execution, kind: string, reason: string, now: nat, stamp: nat)
    requires ValidCheckpoint(c) && now != 0 && stamp != 0
    ensures StoreAccepts(c, CanceledCheckpoint(c, kind, reason, now), stamp) <==> !Terminal(c.status)
  {
    hide Blank, ValidUpdate, ValidSteps;
    var next := CanceledCheckpoint(c, kind, reason, now);
    CanceledUpdates(c, kind, reason, now);
    if c.nextStep < |c.steps| && Cancelable(c.steps[c.nextStep].status) {
      WithStepKeepsSteps(c.steps, c.nextStep, next.steps[c.nextStep]);
    }
  }

  /**
   The coordinator's recovery checkpoint passes both checks exactly when the execution is
   running or already in recovery. `resumeInterrupted` itself does not look at the status:
   its caller does, before the claim; the store settles what changed in between.
   */
  lemma InterruptionAcceptedIffRunning(c: Execution, step: VersionStep, stamp: nat)
    requires ValidCheckpoint(c) && stamp != 0
    requires c.nextStep < |c.steps| && c.steps[c.nextStep].status.StepRunning?
    ensures StoreAccepts(c, InterruptedCheckpoint(c, step), stamp) <==> c.status.Running? || c.status.RecoveryRequired?
  {
    hide Blank;
    var next := InterruptedCheckpoint(c, step);
    WithStepKeepsSteps(c.steps, c.nextStep, next.steps[c.nextStep]);
    WithStepUpdates(c.steps, c.nextStep, next.steps[c.nextStep]);
  }

  /** From the store's side: the holder of the lease, or anyone when there is none, gets it stored. */
  lemma AcceptedMeansStored(w: World, caller: Principal, next: Execution, claim: Option<ExecutionClaim>, now: nat, stamp: nat)
    requires Inv(w) && next.id in w.items && StoreAccepts(w.items[next.id], next, stamp)
    requires MayStore(caller, next) && LeaseAllows(w, next.id, claim, now)
    ensures UpdateStep(w, caller, next, claim, now, stamp).items == w.items[next.id := Stored(next, stamp)]
  {
    hide ValidCheckpoint, MayStore, LeaseAllows;
    assert HistoryOk(next.id, w.items[next.id], w.writes[next.id]);
    var k := |w.writes[next.id]| - 1;
    assert Link(w.writes[next.id], next.id, k);
  }
}
