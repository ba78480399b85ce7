/**
 The checkpoints the executor's run loop writes for its current step, and exactly when the
 store takes each of them. `now` is the executor's clock.
 */
module Progress {
  import opened Results
  import opened Text
  import opened Checkpoint
  import opened LeaseHistory
  import opened ExecutionStore
  import opened Recovery

  datatype Move =
    | Begin
    | Skip(now: nat)
    | Complete(output: Option<string>, now: nat)
    | AskApproval(approvalID: string)
    | ApprovalGranted
    | NeedRecovery(output: Option<string>, error: ErrorInfo)
    | Fail(error: ErrorInfo, now: nat)

  predicate AtStep(c: Execution) {
    0 <= c.nextStep < |c.steps|
  }

  /** What is written for the current step. */
  function Written(c: Execution, move: Move): Execution
    requires AtStep(c)
  {
    var run := CurrentStep(c);
    match move
    case Begin => WithStep(c, run.(status := StepRunning))
    case Skip(now) => WithStep(c, run.(status := StepSkipped, completedAt := now)).(nextStep := c.nextStep + 1)
    case Complete(output, now) =>
      WithStep(c, run.(status := StepCompleted, output := output, completedAt := now)).(nextStep := c.nextStep + 1)
    case AskApproval(approvalID) =>
      WithStep(c, run.(status := StepAwaitingApproval)).(status := AwaitingApproval, pendingApprovalID := approvalID)
    case ApprovalGranted => c.(status := Running, pendingApprovalID := "")
    case NeedRecovery(output, error) =>
      WithStep(c, run.(status := StepRecoveryRequired, output := output, error := Some(error)))
        .(status := RecoveryRequired, error := Some(error))
    case Fail(error, now) =>
      WithStep(c, run.(status := StepFailed, completedAt := now, error := Some(error)))
        .(status := Failed, completedAt := now, error := Some(error))
  }

  /** The end of a run whose steps are all done. */
  function Concluded(c: Execution, now: nat): Execution {
    c.(status := Completed, completedAt := now)
  }

  /** From a running execution: which statuses of the current step let the move through. */
  predicate StepAllows(status: StepStatus, move: Move) {
    match move
    case Begin => status.StepPending? || status.StepRunning? || status.StepAwaitingApproval? || status.StepRecoveryRequired?
    case Skip(_) => status.StepPending? || status.StepSkipped?
    case Complete(_, _) => status.StepRunning? || status.StepRecoveryRequired? || status.StepCompleted?
    case AskApproval(_) => status.StepRunning? || status.StepAwaitingApproval?
    case ApprovalGranted => true
    case NeedRecovery(_, _) => status.StepRunning? || status.StepRecoveryRequired?
    case Fail(_, _) =>
      || status.StepPending? || status.StepRunning? || status.StepAwaitingApproval? || status.StepRecoveryRequired?
      || status.StepFailed?
  }

  /** What the executor supplies with a move: real times and approval identifiers. */
  predicate Sensible(move: Move) {
    && (move.AskApproval? ==> move.approvalID != "")
    && (move.Fail? ==> move.now != 0)
  }

  /**
   From a valid checkpoint of a running execution the store takes what the run loop writes
   exactly when the current step's status allows the move.
   */
  lemma MoveAcceptedIff(c: Execution, move: Move, stamp: nat)
    requires ValidCheckpoint(c) && c.status.Running? && AtStep(c) && Sensible(move) && stamp != 0
    ensures StoreAccepts(c, Written(c, move), stamp) <==> StepAllows(CurrentStep(c).status, move)
  {
    assert ValidStep(c.steps[c.nextStep]);
    hide Blank, ValidSteps, Principal.Authenticated;
    var next := Written(c, move);
    WithStepKeepsSteps(c.steps, c.nextStep, next.steps[c.nextStep]);
    if StepMayBecome(c.steps[c.nextStep], next.steps[c.nextStep]) {
      WithStepUpdates(c.steps, c.nextStep, next.steps[c.nextStep]);
    }
  }

  /** An execution that waits for an approval goes on when it is granted, and fails when it is not. */
  lemma ApprovalDecisionIsStored(c: Execution, error: ErrorInfo, now: nat, stamp: nat)
    requires ValidCheckpoint(c) && c.status.AwaitingApproval? && AtStep(c) && now != 0 && stamp != 0
    ensures StoreAccepts(c, Written(c, ApprovalGranted), stamp)
    ensures CurrentStep(c).status.StepAwaitingApproval? ==>
              StoreAccepts(c, Written(c, Fail(error, now)).(pendingApprovalID := ""), stamp)
  {
    hide Blank, ValidSteps, Principal.Authenticated;
    var failed := Written(c, Fail(error, now));
    WithStepKeepsSteps(c.steps, c.nextStep, failed.steps[c.nextStep]);
    if CurrentStep(c).status.StepAwaitingApproval? {
      WithStepUpdates(c.steps, c.nextStep, failed.steps[c.nextStep]);
    }
  }

  /** A run whose steps are done ends, unless it waits for an approval or has ended already. */
  lemma ConclusionAcceptedIff(c: Execution, now: nat, stamp: nat)
    requires ValidCheckpoint(c) && now != 0 && stamp != 0
    ensures StoreAccepts(c, Concluded(c, now), stamp) <==> c.status.Running? || c.status.RecoveryRequired?
  {
    hide Blank, ValidSteps;
  }

  /** What no accepted update does: finish a step that was not begun, or take back a decision to end. */
  lemma NothingIsSkippedOver(previous: Execution, next: Execution, i: nat)
    requires ValidUpdate(previous, next) && i < |previous.steps| && previous.steps[i].status != next.steps[i].status
    ensures var before, after := previous.steps[i].status, next.steps[i].status;
            && (after.StepCompleted? ==> before.StepRunning? || before.StepRecoveryRequired?)
            && (after.StepAwaitingApproval? || after.StepRecoveryRequired? ==> before.StepRunning?)
            && (after.StepSkipped? ==> before.StepPending?)
            && !after.StepPending? && !Settled(before)
    ensures next.status.Completed? ==> previous.status.Running? || previous.status.RecoveryRequired?
    ensures next.status != previous.status && (next.status.AwaitingApproval? || next.status.RecoveryRequired?) ==>
              previous.status.Running?
  {
    assert StepMayBecome(previous.steps[i], next.steps[i]);
  }

  // ---- A whole run ----

  /** One step begun and completed. */
  function StepDone(c: Execution, now: nat): Execution {
    if !AtStep(c) then c
    else
      var begun := Stored(Written(c, Begin), now);
      Stored(Written(begun, Complete(CurrentStep(begun).output, now)), now)
  }

  /** A run in which n steps are begun and completed in order. */
  function Plain(c: Execution, n: nat, now: nat): Execution {
    if n == 0 then c else StepDone(Plain(c, n - 1, now), now)
  }

  ghost predicate PendingFrom(c: Execution, from: int) {
    forall i :: 0 <= from <= i < |c.steps| ==> c.steps[i].status.StepPending?
  }

  /** The first n remaining steps are done, one write for the beginning and one for the end of each. */
  ghost predicate DoneSoFar(c: Execution, n: nat, d: Execution) {
    && ValidCheckpoint(d) && d.status.Running?
    && d.nextStep == c.nextStep + n && |d.steps| == |c.steps| && d.revision == c.revision + 2 * n
    && PendingFrom(d, d.nextStep)
    && (forall i :: 0 <= c.nextStep <= i < d.nextStep <= |d.steps| ==> d.steps[i].status.StepCompleted?)
  }

  /** The store takes the beginning of the current step and then its end. */
  ghost predicate StepIsStored(d: Execution, now: nat) {
    && AtStep(d) && StoreAccepts(d, Written(d, Begin), now)
    && var begun := Stored(Written(d, Begin), now);
       AtStep(begun) && StoreAccepts(begun, Written(begun, Complete(CurrentStep(begun).output, now)), now)
  }

  /**
   From any valid running checkpoint with its remaining steps pending the whole run is stored,
   write by write, and so is its conclusion.
   */
  lemma {:induction false} PlainRunIsStored(c: Execution, n: nat, now: nat)
    requires ValidCheckpoint(c) && c.status.Running? && PendingFrom(c, c.nextStep) && now != 0
    requires c.nextStep + n <= |c.steps|
    ensures DoneSoFar(c, n, Plain(c, n, now))
    ensures c.nextStep + n < |c.steps| ==> StepIsStored(Plain(c, n, now), now)
    ensures c.nextStep + n == |c.steps| ==> StoreAccepts(Plain(c, n, now), Concluded(Plain(c, n, now), now), now)
  {
    hide ValidCheckpoint, DoneSoFar, StepDone;
    if n == 0 {
      assert DoneSoFar(c, 0, c) by { NothingDone(c); }
    } else {
      PlainRunIsStored(c, n - 1, now);
      DoneOneMore(c, n - 1, Plain(c, n - 1, now), now);
    }
    DoneIsRunning(c, n, Plain(c, n, now));
    hide *;
    if c.nextStep + n < |c.steps| { OneStepMore(Plain(c, n, now), now); }
    ConclusionAcceptedIff(Plain(c, n, now), now, now);
  }

  lemma NothingDone(c: Execution)
    requires ValidCheckpoint(c) && c.status.Running? && PendingFrom(c, c.nextStep)
    ensures DoneSoFar(c, 0, c)
  {
    hide ValidCheckpoint;
  }

  lemma DoneIsRunning(c: Execution, n: nat, d: Execution)
    requires DoneSoFar(c, n, d) && ValidCheckpoint(c)
    ensures ValidCheckpoint(d) && d.status.Running? && PendingFrom(d, d.nextStep)
    ensures c.nextStep + n < |c.steps| ==> AtStep(d)
  {
    hide ValidSteps, Blank;
  }

  lemma DoneOneMore(c: Execution, n: nat, d: Execution, now: nat)
    requires ValidCheckpoint(c) && DoneSoFar(c, n, d) && c.nextStep + n < |c.steps| && now != 0
    ensures DoneSoFar(c, n + 1, StepDone(d, now))
  {
    DoneIsRunning(c, n, d);
    hide ValidCheckpoint, StepDone, StepIsStored;
    OneStepMore(d, now);
  }

  lemma OneStepMore(d: Execution, now: nat)
    requires ValidCheckpoint(d) && d.status.Running? && AtStep(d) && PendingFrom(d, d.nextStep) && now != 0
    ensures StepIsStored(d, now)
    ensures var done := StepDone(d, now);
            && ValidCheckpoint(done) && done.status.Running? && done.nextStep == d.nextStep + 1
            && done.revision == d.revision + 2
            && |done.steps| == |d.steps| && done.steps[d.nextStep].status.StepCompleted?
            && (forall i :: 0 <= i < |d.steps| && i != d.nextStep ==> done.steps[i] == d.steps[i])
  {
    MoveAcceptedIff(d, Begin, now);
    var begun := Stored(Written(d, Begin), now);
    hide ValidCheckpoint, ValidUpdate;
    MoveAcceptedIff(begun, Complete(CurrentStep(begun).output, now), now);
  }
}
