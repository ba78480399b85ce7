/**
 What claiming, renewing, releasing and writing achieve, said of the store's tables, and what
 a lease is worth over every run that follows.
 */
module LeaseEffects {
  import opened Results
  import opened Text
  import opened Ordering
  import opened Checkpoint
  import opened LeaseHistory
  import opened ExecutionStore
  import opened ExecutionRuns

  /** The record names this owner and token, and its limit is still to come. */
  predicate Holds(w: World, id: string, owner: string, token: int, now: nat) {
    id in w.leases && w.leases[id].owner == owner && w.leases[id].token == token && now < w.leases[id].until
  }

  /** Nothing but lease records may differ. */
  predicate SameButLeases(w: World, w': World) {
    w'.items == w.items && w'.writes == w.writes
  }

  /** The execution is there for this tenant and has not ended. */
  predicate OpenFor(w: World, caller: Principal, id: string) {
    id in w.items && w.items[id].principal.tenantID == caller.tenantID && !Terminal(w.items[id].status)
  }

  // ---- Single steps ----

  /** Leases run from a second to a day, under a name of one line and at most 256 characters. */
  lemma LeaseBounds(owner: string, duration: int)
    ensures ValidLeaseRequest(owner, duration) <==>
            && 1_000_000_000 <= duration <= 86_400_000_000_000
            && 0 < |TrimSpace(owner)| <= 256
            && forall i :: 0 <= i < |TrimSpace(owner)| ==> TrimSpace(owner)[i] as int !in {0, 10, 13}
  {
    hide TrimSpace;
    var name := TrimSpace(owner);
    assert ('\0' as int) == 0 && ('\n' as int) == 10 && ('\r' as int) == 13;
    assert forall i :: 0 <= i < |name| ==> (name[i] as int == 0 <==> name[i] == '\0');
    assert forall i :: 0 <= i < |name| ==> (name[i] as int == 10 <==> name[i] == '\n');
    assert forall i :: 0 <= i < |name| ==> (name[i] as int == 13 <==> name[i] == '\r');
  }

  /** A worker may ask for up to a thousand executions that run or wait for an approval, and no others. */
  lemma ReadyBounds(r: ReadyRequest)
    ensures ValidReadyRequest(r) <==>
            && ValidLeaseRequest(r.owner, r.duration) && 0 < r.limit <= 1000 && |r.statuses| > 0
            && forall s :: s in r.statuses ==> s in {Running, AwaitingApproval}
  {
    hide ValidLeaseRequest;
  }

  /** A renewal by the holder moves the limit to `duration` from now, and returns that limit; any other changes nothing. */
  lemma RenewEffect(w: World, caller: Principal, claim: ExecutionClaim, duration: int, now: nat)
    requires Inv(w)
    ensures var (w', r) := RenewStep(w, caller, claim, duration, now);
            var id := claim.execution.id;
            && (r.Ok? <==>
                  && ValidLeaseRequest(claim.owner, duration) && caller.Authenticated()
                  && id in w.items && w.items[id].principal.tenantID == caller.tenantID
                  && Holds(w, id, claim.owner, claim.token, now))
            && (r.Ok? ==>
                  && r.value == ExecutionClaim(w.items[id], claim.owner, claim.token, now + duration)
                  && w'.leases == w.leases[id := Lease(claim.owner, claim.token, now + duration)])
            && (r.Err? ==> w'.leases == w.leases)
            && SameButLeases(w, w') && w'.nextFence == w.nextFence
  {
    hide Inv, ValidWorkerName, Principal.Authenticated;
    if ValidWorkerName(claim.owner) { ValidNamesAreNotEmpty(claim.owner); }
  }

  /** The execution's record is live and another owner's. */
  predicate TakenByOther(w: World, id: string, owner: string, now: nat) {
    id in w.leases && now < w.leases[id].until && w.leases[id].owner != owner
  }

  predicate StillOwn(w: World, id: string, owner: string, now: nat) {
    id in w.leases && now < w.leases[id].until && w.leases[id].owner == owner
  }

  /**
   A claim of an open execution that no other owner holds gives the caller a lease until
   `duration` from now, under the token it has already or else under one above all before.
   */
  lemma ClaimEffect(w: World, caller: Principal, id: string, owner: string, duration: int, now: nat)
    requires Inv(w)
    ensures var (w', r) := ClaimStep(w, caller, id, owner, duration, now);
            var asked := ValidLeaseRequest(owner, duration) && caller.Authenticated();
            var given := asked && OpenFor(w, caller, id) && !TakenByOther(w, id, owner, now);
            && (r.Ok? && r.value.Some? <==> given)
            && (r == Ok(None) <==> asked && (id !in w.items || (OpenFor(w, caller, id) && TakenByOther(w, id, owner, now))))
            && (given ==>
                  var c := r.value.value;
                  && c == ExecutionClaim(w.items[id], owner, c.token, now + duration)
                  && w'.leases == w.leases[id := Lease(owner, c.token, now + duration)]
                  && c.token == (if StillOwn(w, id, owner, now) then w.leases[id].token else w.nextFence + 1)
                  && w'.nextFence == (if StillOwn(w, id, owner, now) then w.nextFence else c.token))
            && (!given ==> w'.leases == w.leases && w'.nextFence == w.nextFence)
            && SameButLeases(w, w')
  {
    if id in w.leases { LeaseRecord(w, id); }
    hide Inv, ValidLeaseRequest, Principal.Authenticated, Terminal;
  }

  /** A release by the holder deletes the record and nothing else. */
  lemma ReleaseEffect(w: World, caller: Principal, claim: ExecutionClaim, now: nat)
    requires Inv(w)
    ensures var (w', r) := ReleaseStep(w, caller, claim, now);
            var id := claim.execution.id;
            && (r.Ok? <==>
                  && caller.Authenticated()
                  && (id in w.items ==> w.items[id].principal.tenantID == caller.tenantID
                                        && Holds(w, id, claim.owner, claim.token, now)))
            && w'.leases == (if r.Ok? && id in w.items then w.leases - {id} else w.leases)
            && SameButLeases(w, w') && w'.nextFence == w.nextFence
  {
    hide Inv, Principal.Authenticated;
  }

  /** A released execution is free at once: the next claim of it, by whomever, is granted. */
  lemma ReleaseFrees(w: World, caller: Principal, claim: ExecutionClaim, now: nat,
                     other: Principal, owner: string, duration: int, later: nat)
    requires Inv(w) && claim.execution.id in w.items && ReleaseStep(w, caller, claim, now).1.Ok?
    requires ValidLeaseRequest(owner, duration) && other.Authenticated() && OpenFor(w, other, claim.execution.id)
    ensures var w' := ReleaseStep(w, caller, claim, now).0;
            ClaimStep(w', other, claim.execution.id, owner, duration, later).1 ==
            Ok(Some(ExecutionClaim(w.items[claim.execution.id], owner, w.nextFence + 1, later + duration)))
  {
    hide Inv, ReleaseStep, ClaimStep, ValidLeaseRequest, Principal.Authenticated, Terminal;
    var w' := ReleaseStep(w, caller, claim, now).0;
    ReleaseEffect(w, caller, claim, now);
    StepKeeps(w, Release(caller, claim, now));
    assert Step(w, Release(caller, claim, now)) == w';
    ClaimEffect(w', other, claim.execution.id, owner, duration, later);
  }

  /** The stored checkpoint is the given one under the next revision, stamped; all others stay. */
  predicate StoresIt(w: World, w': World, e: Execution, stamp: nat) {
    && e.id in w'.items && w'.items == w.items[e.id := w'.items[e.id]]
    && w'.items[e.id].revision == e.revision + 1 && w'.items[e.id].updatedAt == stamp
    && w'.items[e.id].(revision := e.revision, updatedAt := e.updatedAt) == e
  }

  lemma CreateEffect(w: World, caller: Principal, e: Execution, now: nat)
    ensures var (w', r) := CreateStep(w, caller, e, now);
            && (r.Ok? ==> e.id !in w.items && e.revision == 0 && StoresIt(w, w', e, now) && r.value == w'.items[e.id])
            && (r.Err? ==> w'.items == w.items) && w'.leases == w.leases && w'.nextFence == w.nextFence
  {
    hide ValidCheckpoint, MayStore;
  }

  lemma UpdateEffect(w: World, caller: Principal, e: Execution, claim: Option<ExecutionClaim>, now: nat, stamp: nat)
    ensures var w' := UpdateStep(w, caller, e, claim, now, stamp);
            && (UpdateAccepted(w, caller, e, claim, now, stamp) ==> StoresIt(w, w', e, stamp))
            && (!UpdateAccepted(w, caller, e, claim, now, stamp) ==> w'.items == w.items)
            && w'.leases == w.leases && w'.nextFence == w.nextFence
  {
    hide ValidCheckpoint, MayStore, ValidUpdate, LeaseAllows;
  }

  // ---- What a lease is worth ----

  /** The step is the lease holder's own claim, renewal or release. */
  predicate HoldersOwn(op: Op, id: string, lease: Lease) {
    match op
    case Claim(_, i, owner, _, _) => i == id && owner == lease.owner
    case Renew(_, held, _, _) => held.execution.id == id && held.owner == lease.owner && held.token == lease.token
    case Release(_, held, _) => held.execution.id == id && held.owner == lease.owner && held.token == lease.token
    case _ => false
  }

  /** The record is what it was, and no token for the execution was handed out since. */
  ghost predicate Undisturbed(w: World, w': World, id: string, lease: Lease) {
    && id in w'.leases && w'.leases[id] == lease
    && forall t :: NewToken(w, w', t) ==> w'.tenures[t].id != id
  }

  lemma OthersLeaveTheRecord(w: World, op: Op, id: string)
    requires Inv(w) && id in w.leases && op.now < w.leases[id].until && !HoldersOwn(op, id, w.leases[id])
    ensures id in Step(w, op).leases && Step(w, op).leases[id] == w.leases[id]
  {
    hide Inv, CreateStep, UpdateStep, ClaimStep, RenewStep, ReleaseStep, ClaimReadyStep;
    match op
    case Create(caller, e, now) => CreateEffect(w, caller, e, now);
    case Update(caller, e, claim, now, stamp) => UpdateEffect(w, caller, e, claim, now, stamp);
    case Claim(caller, other, owner, duration, now) => ClaimEffect(w, caller, other, owner, duration, now);
    case ClaimReady(caller, request, now) => ReadyLeavesTheRecord(w, caller, request, now, id);
    case Renew(caller, held, duration, now) => RenewEffect(w, caller, held, duration, now);
    case Release(caller, held, now) => ReleaseEffect(w, caller, held, now);
  }

  lemma ReadyLeavesTheRecord(w: World, caller: Principal, r: ReadyRequest, now: nat, id: string)
    requires Inv(w) && id in w.leases && now < w.leases[id].until
    ensures id in ClaimReadyStep(w, caller, r, now).leases && ClaimReadyStep(w, caller, r, now).leases[id] == w.leases[id]
  {
    LeaseRecord(w, id);
    hide Inv, ValidWorkerName, Principal.Authenticated, GrantAll, Oldest, ReadyKeys, Before, Sorted, Ready, Ids;
    if ValidReadyRequest(r) && caller.Authenticated() {
      ClaimReadyTakesTheOldest(w, caller, r, now);
      LiveIsNotChosen(w, caller, r, now, id);
    }
  }

  lemma LiveIsNotChosen(w: World, caller: Principal, r: ReadyRequest, now: nat, id: string)
    requires id in w.leases && w.leases[id].owner != "" && now < w.leases[id].until
    requires var chosen := Oldest(ReadyKeys(w, caller, r.statuses, now), if r.limit >= 0 then r.limit else 0);
             forall i :: 0 <= i < |chosen| ==> Ready(w, caller, r.statuses, now, chosen[i].id)
    ensures id !in Ids(Oldest(ReadyKeys(w, caller, r.statuses, now), if r.limit >= 0 then r.limit else 0))
  {
    hide Oldest, ReadyKeys;
    var chosen := Oldest(ReadyKeys(w, caller, r.statuses, now), if r.limit >= 0 then r.limit else 0);
    forall k | k in chosen
      ensures k.id != id
    {
      var i :| 0 <= i < |chosen| && chosen[i] == k;
      assert Ready(w, caller, r.statuses, now, chosen[i].id);
    }
  }

  lemma StepLeavesUndisturbed(w: World, op: Op, id: string)
    requires Inv(w) && id in w.leases && op.now < w.leases[id].until && !HoldersOwn(op, id, w.leases[id])
    ensures Undisturbed(w, Step(w, op), id, w.leases[id])
  {
    hide Inv, Step;
    OthersLeaveTheRecord(w, op, id);
    StepGrantsFresh(w, op);
  }

  /**
   Along every run of steps that read their clocks before a lease's limit and are not the
   holder's own claims, renewals or releases: the record stays, and nobody is handed a token
   for the execution.
   */
  lemma {:induction false} LeaseLastsToItsLimit(w: World, ops: seq<Op>, id: string)
    requires Inv(w) && id in w.leases
    requires forall op :: op in ops ==> op.now < w.leases[id].until && !HoldersOwn(op, id, w.leases[id])
    ensures Inv(Run(w, ops)) && TokensKept(w, Run(w, ops)) && Undisturbed(w, Run(w, ops), id, w.leases[id])
  {
    hide Inv, Step, HoldersOwn;
    if ops != [] {
      var front, op := ops[..|ops| - 1], ops[|ops| - 1];
      assert op in ops;
      LeaseLastsToItsLimit(w, front, id);
      RunKeeps(w, front);
      RunKeeps(w, ops);
      StepLeavesUndisturbed(Run(w, front), op, id);
      StepGrantsFresh(Run(w, front), op);
    }
  }

  /** A renewal accepted at `now` keeps everybody else out until `now + duration`, in every run that follows. */
  lemma RenewalLasts(w: World, caller: Principal, held: ExecutionClaim, duration: int, now: nat, ops: seq<Op>)
    requires Inv(w) && RenewStep(w, caller, held, duration, now).1.Ok?
    requires duration >= 0
    requires var lease := Lease(held.owner, held.token, now + duration);
             forall op :: op in ops ==> op.now < lease.until && !HoldersOwn(op, held.execution.id, lease)
    ensures var w' := RenewStep(w, caller, held, duration, now).0;
            Undisturbed(w', Run(w', ops), held.execution.id, Lease(held.owner, held.token, now + duration))
  {
    hide Inv, RenewStep, HoldersOwn;
    RenewEffect(w, caller, held, duration, now);
    StepKeeps(w, Renew(caller, held, duration, now));
    LeaseLastsToItsLimit(RenewStep(w, caller, held, duration, now).0, ops, held.execution.id);
  }

  /** So does a claim, whether it hands out a token or extends the lease under the old one. */
  lemma ClaimLasts(w: World, caller: Principal, id: string, owner: string, duration: int, now: nat, ops: seq<Op>)
    requires Inv(w) && duration >= 0
    requires var r := ClaimStep(w, caller, id, owner, duration, now).1;
             && r.Ok? && r.value.Some?
             && var lease := Lease(owner, r.value.value.token, now + duration);
                forall op :: op in ops ==> op.now < lease.until && !HoldersOwn(op, id, lease)
    ensures var (w', r) := ClaimStep(w, caller, id, owner, duration, now);
            Undisturbed(w', Run(w', ops), id, Lease(owner, r.value.value.token, now + duration))
  {
    hide Inv, ClaimStep, HoldersOwn;
    ClaimEffect(w, caller, id, owner, duration, now);
    StepKeeps(w, Claim(caller, id, owner, duration, now));
    LeaseLastsToItsLimit(ClaimStep(w, caller, id, owner, duration, now).0, ops, id);
  }

  /** And every lease that a ready claim hands out. */
  lemma ReadyClaimLasts(w: World, caller: Principal, r: ReadyRequest, now: nat, i: nat, ops: seq<Op>)
    requires Inv(w) && ValidReadyRequest(r) && caller.Authenticated()
    requires var chosen := Oldest(ReadyKeys(w, caller, r.statuses, now), r.limit);
             && i < |chosen|
             && var lease := Lease(r.owner, w.nextFence + i + 1, now + r.duration);
                forall op :: op in ops ==> op.now < lease.until && !HoldersOwn(op, chosen[i].id, lease)
    ensures var w' := ClaimReadyStep(w, caller, r, now);
            var chosen := Oldest(ReadyKeys(w, caller, r.statuses, now), r.limit);
            Undisturbed(w', Run(w', ops), chosen[i].id, Lease(r.owner, w.nextFence + i + 1, now + r.duration))
  {
    hide Inv, ClaimReadyStep, HoldersOwn, Oldest, ReadyKeys, ValidWorkerName;
    ClaimReadyTakesTheOldest(w, caller, r, now);
    StepKeeps(w, ClaimReady(caller, r, now));
    var chosen := Oldest(ReadyKeys(w, caller, r.statuses, now), r.limit);
    ValidNamesAreNotEmpty(r.owner);
    LeaseLastsToItsLimit(ClaimReadyStep(w, caller, r, now), ops, chosen[i].id);
  }

  /** While a lease lasts its holder's good writes are taken and nobody else's are. */
  lemma OnlyTheHolderWrites(w: World, e: Execution, caller: Principal, claim: Option<ExecutionClaim>, now: nat, stamp: nat)
    requires Inv(w) && e.id in w.leases && now < w.leases[e.id].until
    ensures UpdateAccepted(w, caller, e, claim, now, stamp) <==>
            && claim.Some? && claim.value.execution.id == e.id
            && claim.value.owner == w.leases[e.id].owner && claim.value.token == w.leases[e.id].token
            && caller.Valid() && caller.tenantID != "" && e.principal.tenantID == caller.tenantID
            && ValidUpdate(w.items[e.id], e) && ValidCheckpoint(Stored(e, stamp))
  {
    LeaseRecord(w, e.id);
    assert HistoryOk(e.id, w.items[e.id], w.writes[e.id]);
    assert Link(w.writes[e.id], e.id, |w.writes[e.id]| - 1);
    hide ValidCheckpoint, SameIdentity, Principal.Valid;
  }

  /** What a ready claim chooses from: the tenant's executions of an asked-for status whose lease is gone or has passed. */
  lemma ReadyIff(w: World, caller: Principal, statuses: seq<ExecutionStatus>, now: nat, k: Key)
    requires Inv(w)
    ensures k in ReadyKeys(w, caller, statuses, now) <==>
            && k.id in w.items && w.items[k.id].updatedAt == k.time
            && w.items[k.id].principal.tenantID == caller.tenantID && w.items[k.id].status in statuses
            && (k.id in w.leases ==> w.leases[k.id].until <= now)
  {
    if k.id in w.leases { LeaseRecord(w, k.id); }
    hide Inv;
    if k.id in w.items { assert Key(w.items[k.id].updatedAt, k.id) == k <==> k.time == w.items[k.id].updatedAt; }
  }

  // ---- Tenants ----

  /** No step of another tenant's caller touches an execution or its lease. */
  lemma OtherTenantsLeaveIt(w: World, op: Op, id: string)
    requires Inv(w) && id in w.items && w.items[id].principal.tenantID != op.caller.tenantID
    ensures var w' := Step(w, op);
            && id in w'.items && w'.items[id] == w.items[id]
            && w'.LeaseOf(id) == w.LeaseOf(id)
  {
    hide Inv, CreateStep, UpdateStep, ClaimStep, RenewStep, ReleaseStep, ClaimReadyStep;
    match op
    case Create(caller, e, now) => CreateEffect(w, caller, e, now);
    case Update(caller, e, claim, now, stamp) =>
      UpdateEffect(w, caller, e, claim, now, stamp);
      if UpdateAccepted(w, caller, e, claim, now, stamp) { WritersTenant(w, caller, e, claim, now, stamp); }
    case Claim(caller, other, owner, duration, now) => ClaimEffect(w, caller, other, owner, duration, now);
    case ClaimReady(caller, request, now) => ReadyLeavesOtherTenants(w, caller, request, now, id);
    case Renew(caller, held, duration, now) => RenewEffect(w, caller, held, duration, now);
    case Release(caller, held, now) => ReleaseEffect(w, caller, held, now);
  }

  lemma WritersTenant(w: World, caller: Principal, e: Execution, claim: Option<ExecutionClaim>, now: nat, stamp: nat)
    requires UpdateAccepted(w, caller, e, claim, now, stamp)
    ensures e.id in w.items && w.items[e.id].principal.tenantID == caller.tenantID
  {
    hide ValidCheckpoint, LeaseAllows;
  }

  lemma ReadyLeavesOtherTenants(w: World, caller: Principal, r: ReadyRequest, now: nat, id: string)
    requires id in w.items && w.items[id].principal.tenantID != caller.tenantID
    ensures var w' := ClaimReadyStep(w, caller, r, now); w'.items == w.items && w'.LeaseOf(id) == w.LeaseOf(id)
  {
    hide ValidWorkerName, Principal.Authenticated, GrantAll, Oldest, ReadyKeys, Before, Sorted, Ready, Ids;
    if ValidReadyRequest(r) && caller.Authenticated() {
      ClaimReadyTakesTheOldest(w, caller, r, now);
      OthersAreNotChosen(w, caller, r, now, id);
    }
  }

  lemma OthersAreNotChosen(w: World, caller: Principal, r: ReadyRequest, now: nat, id: string)
    requires id in w.items && w.items[id].principal.tenantID != caller.tenantID && r.limit >= 0
    requires var chosen := Oldest(ReadyKeys(w, caller, r.statuses, now), r.limit);
             forall i :: 0 <= i < |chosen| ==> Ready(w, caller, r.statuses, now, chosen[i].id)
    ensures id !in Ids(Oldest(ReadyKeys(w, caller, r.statuses, now), r.limit))
  {
    hide Oldest, ReadyKeys;
    var chosen := Oldest(ReadyKeys(w, caller, r.statuses, now), r.limit);
    forall k | k in chosen
      ensures k.id != id
    {
      var i :| 0 <= i < |chosen| && chosen[i] == k;
      assert Ready(w, caller, r.statuses, now, chosen[i].id);
    }
  }

  // ---- What is stored ----

  /** Along every run, what is stored can be told apart, dated and continued. */
  lemma StoredCheckpointsAreSound(ops: seq<Op>, id: string)
    requires id in Run(EMPTY, ops).items
    ensures var e := Run(EMPTY, ops).items[id];
            && e.id == id && id != "" && e.workflowID != "" && e.workflowVersion >= 1 && e.revision >= 1
            && e.principal.Authenticated() && !e.status.OtherExecutionStatus?
            && e.startedAt != 0 && e.updatedAt != 0 && (e.deadlineAt != 0 ==> e.startedAt < e.deadlineAt)
            && 0 <= e.nextStep <= |e.steps|
            && (e.pendingApprovalID != "" <==> e.status.AwaitingApproval?)
            && (e.status.RecoveryRequired? ==> e.error.Some?)
            && (e.completedAt != 0 <==> e.status.Completed? || e.status.Failed? || e.status.Canceled?)
            && (forall i :: 0 <= i < |e.steps| ==>
                  e.steps[i].stepID != "" && e.steps[i].attempts >= 0 && !e.steps[i].status.OtherStepStatus?)
            && (forall i, j :: 0 <= i < j < |e.steps| ==> e.steps[i].stepID != e.steps[j].stepID)
  {
    EmptyOk();
    RunKeeps(EMPTY, ops);
    hide Run;
    var w := Run(EMPTY, ops);
    assert HistoryOk(id, w.items[id], w.writes[id]);
    var k := |w.writes[id]| - 1;
    assert Link(w.writes[id], id, k);
  }

  /**
   Whatever steps follow, an execution stays whose it is, with its version, input, dates and
   steps; positions and attempts are not taken back, and what has ended stays as it is.
   */
  lemma WhatNeverChanges(w: World, ops: seq<Op>, id: string)
    requires Inv(w) && id in w.items
    ensures id in Run(w, ops).items
    ensures var was, e := w.items[id], Run(w, ops).items[id];
            && e.id == was.id && e.principal == was.principal
            && e.workflowID == was.workflowID && e.workflowVersion == was.workflowVersion
            && e.startedAt == was.startedAt && e.deadlineAt == was.deadlineAt
            && e.input == was.input && e.context == was.context
            && was.nextStep <= e.nextStep && was.revision <= e.revision && |e.steps| == |was.steps|
            && (forall i :: 0 <= i < |was.steps| ==>
                  && e.steps[i].stepID == was.steps[i].stepID && was.steps[i].attempts <= e.steps[i].attempts
                  && (was.steps[i].status in {StepCompleted, StepSkipped, StepFailed, StepCanceled} ==>
                        e.steps[i].status == was.steps[i].status))
            && (was.status.Completed? || was.status.Failed? || was.status.Canceled? ==> e == was)
  {
    hide Run;
    RunMovesOn(w, ops, id);
    var w' := Run(w, ops);
    var k := |w.writes[id]| - 1;
    assert HistoryOk(id, w.items[id], w.writes[id]);
    ReadChain(w, id, k, k);
    ReadChain(w', id, k, |w'.writes[id]| - 1);
    assert w'.writes[id][k] == w.writes[id][k];
  }

  /** What a run does is what the store's operations do, one after the other. */
  lemma RunIsItsOperations(w: World, ops: seq<Op>, op: Op)
    ensures var v, v' := Run(w, ops), Run(w, ops + [op]);
            && (op.Create? ==> v' == CreateStep(v, op.caller, op.execution, op.now).0)
            && (op.Update? ==> v' == UpdateStep(v, op.caller, op.execution, op.claim, op.now, op.stamp))
            && (op.Claim? ==> v' == ClaimStep(v, op.caller, op.id, op.owner, op.duration, op.now).0)
            && (op.ClaimReady? ==> v' == ClaimReadyStep(v, op.caller, op.request, op.now))
            && (op.Renew? ==> v' == RenewStep(v, op.caller, op.held, op.duration, op.now).0)
            && (op.Release? ==> v' == ReleaseStep(v, op.caller, op.held, op.now).0)
  {
    hide CreateStep, UpdateStep, ClaimStep, ClaimReadyStep, RenewStep, ReleaseStep;
    assert (ops + [op])[..|ops|] == ops;
  }
}
