/**
 The ghost history is a true record: of every accepted write, with the lease record it met, and
 of every tenure, from its grant to its end. What is proved of the history is thereby said of
 the tables.
 */
module HistoryTells {
  import opened Results
  import opened Text
  import opened Ordering
  import opened Checkpoint
  import opened LeaseHistory
  import opened ExecutionStore
  import opened ExecutionRuns

  function WritesOf(w: World, id: string): seq<Write> {
    if id in w.writes then w.writes[id] else []
  }

  predicate Stores(w: World, w': World, id: string) {
    id in w'.items && (id in w.items ==> w'.items[id] != w.items[id])
  }

  /** One more entry for what is newly stored, as the step left it. */
  predicate Recorded(w: World, w': World, id: string, claim: Option<ExecutionClaim>, now: nat) {
    WritesOf(w', id) ==
    if Stores(w, w', id)
    then WritesOf(w, id) + [Write(w'.items[id], claim, if id in w.leases then Some(w.leases[id]) else None, now)]
    else WritesOf(w, id)
  }

  /**
   A step that stores something new for an execution adds one entry: what is stored, the claim
   it carried, the lease record that stood and the time. No other step adds any.
   */
  lemma WriteIsRecorded(w: World, op: Op, id: string)
    requires Inv(w)
    ensures Recorded(w, Step(w, op), id, if op.Update? then op.claim else None, op.now)
  {
    hide Inv, CreateStep, UpdateStep;
    match op
    case Create(caller, e, now) => CreateIsRecorded(w, caller, e, now, id);
    case Update(caller, e, claim, now, stamp) => UpdateIsRecorded(w, caller, e, claim, now, stamp, id);
    case ClaimReady(_, _, _) => ReadyMovesNothing(w, op);
    case _ => LeaseStepsMoveNothing(w, op);
  }

  lemma CreateIsRecorded(w: World, caller: Principal, e: Execution, now: nat, id: string)
    ensures Recorded(w, CreateStep(w, caller, e, now).0, id, None, now)
  {
    hide ValidCheckpoint, MayStore;
  }

  lemma UpdateIsRecorded(w: World, caller: Principal, e: Execution, claim: Option<ExecutionClaim>, now: nat, stamp: nat,
                         id: string)
    ensures Recorded(w, UpdateStep(w, caller, e, claim, now, stamp), id, claim, now)
  {
    hide ValidCheckpoint, MayStore, LeaseAllows, SameIdentity, AllowedExecutionTransition, AllowedStepTransition, StepMayBecome;
    if UpdateAccepted(w, caller, e, claim, now, stamp) {
      assert Stored(e, stamp).revision == w.items[e.id].revision + 1;
    }
  }

  /**
   What a step from `w` to `w'` makes of a tenure: nothing, unless it was the latest; then its
   limit is moved with the record's, or it ends now when the record is deleted.
   */
  function TenureAfter(w: World, w': World, t: int, now: nat): Tenure
    requires t in w.tenures
  {
    var id := w.tenures[t].id;
    if !InForce(w.leases, w.tenures, t) then w.tenures[t]
    else if id !in w'.leases then w.tenures[t].(released := Some(now))
    else if w'.leases[id].token == t then w.tenures[t].(until := w'.leases[id].until)
    else w.tenures[t]
  }

  lemma TenureIsRecorded(w: World, op: Op, t: int)
    requires Inv(w) && t in w.tenures
    ensures t in Step(w, op).tenures && Step(w, op).tenures[t] == TenureAfter(w, Step(w, op), t, op.now)
  {
    StepKeeps(w, op);
    hide Inv, Step;
    if op.ClaimReady? {
      ReadyRecords(w, op, t);
    } else if op.Create? || op.Update? {
      WritesLeaveTenures(w, op, t);
    } else {
      LeaseStepRecords(w, op, t);
    }
  }

  lemma WritesLeaveTenures(w: World, op: Op, t: int)
    requires Inv(w) && t in w.tenures && (op.Create? || op.Update?)
    ensures t in Step(w, op).tenures && Step(w, op).tenures[t] == TenureAfter(w, Step(w, op), t, op.now)
  {
    hide ValidCheckpoint, MayStore, LeaseAllows, ValidUpdate, WritesOk, AllTokensKnown, FenceOk;
    assert Step(w, op).tenures == w.tenures && Step(w, op).leases == w.leases;
    if InForce(w.leases, w.tenures, t) { assert LeaseOk(w.tenures[t].id, w.leases[w.tenures[t].id], w.tenures); }
  }

  lemma LeaseStepRecords(w: World, op: Op, t: int)
    requires Inv(w) && t in w.tenures && (op.Claim? || op.Renew? || op.Release?)
    ensures t in Step(w, op).tenures && Step(w, op).tenures[t] == TenureAfter(w, Step(w, op), t, op.now)
  {
    hide Inv, InForce, ClaimStep, RenewStep, ReleaseStep;
    RecordOfTenure(w, w.tenures[t].id);
    match op
    case Claim(caller, id, owner, duration, now) =>
      RecordOfTenure(w, id);
      ClaimRecords(w, caller, id, owner, duration, now, t);
    case Renew(caller, held, duration, now) =>
      RecordOfTenure(w, held.execution.id);
      RenewRecords(w, caller, held, duration, now, t);
    case Release(caller, held, now) =>
      RecordOfTenure(w, held.execution.id);
      ReleaseRecords(w, caller, held, now, t);
  }

  /** The lease record of an execution is that of its latest tenure. */
  predicate Agrees(w: World, id: string) {
    id in w.leases ==>
      var t := w.leases[id].token;
      t in w.tenures && t <= w.nextFence && w.tenures[t].id == id && w.tenures[t].until == w.leases[id].until
  }

  lemma RecordOfTenure(w: World, id: string)
    requires Inv(w)
    ensures Agrees(w, id)
    ensures forall t :: t in w.tenures ==> t <= w.nextFence
  {
    hide WritesOk, AllTokensKnown;
    if id in w.leases { assert LeaseOk(id, w.leases[id], w.tenures); }
  }

  lemma ClaimRecords(w: World, caller: Principal, id: string, owner: string, duration: int, now: nat, t: int)
    requires t in w.tenures && t <= w.nextFence && Agrees(w, id) && Agrees(w, w.tenures[t].id)
    ensures var w' := ClaimStep(w, caller, id, owner, duration, now).0;
            t in w'.tenures && w'.tenures[t] == TenureAfter(w, w', t, now)
  {
    hide Terminal, ValidLeaseRequest, Blank, ValidCheckpoint;
  }

  lemma RenewRecords(w: World, caller: Principal, held: ExecutionClaim, duration: int, now: nat, t: int)
    requires t in w.tenures && t <= w.nextFence && Agrees(w, held.execution.id) && Agrees(w, w.tenures[t].id)
    ensures var w' := RenewStep(w, caller, held, duration, now).0;
            t in w'.tenures && w'.tenures[t] == TenureAfter(w, w', t, now)
  {
    hide ValidLeaseRequest, Blank;
  }

  lemma ReleaseRecords(w: World, caller: Principal, held: ExecutionClaim, now: nat, t: int)
    requires t in w.tenures && t <= w.nextFence && Agrees(w, held.execution.id) && Agrees(w, w.tenures[t].id)
    ensures var w' := ReleaseStep(w, caller, held, now).0;
            t in w'.tenures && w'.tenures[t] == TenureAfter(w, w', t, now)
  {
    hide Blank;
  }

  lemma ReadyRecords(w: World, op: Op, t: int)
    requires Inv(w) && t in w.tenures && op.ClaimReady? && Inv(Step(w, op))
    ensures t in Step(w, op).tenures && Step(w, op).tenures[t] == TenureAfter(w, Step(w, op), t, op.now)
  {
    hide GrantAll, Oldest, ReadyKeys, ValidWorkerName, WritesOk, AllTokensKnown, Blank;
    var r := op.request;
    if ValidReadyRequest(r) && op.caller.Authenticated() {
      var chosen := Oldest(ReadyKeys(w, op.caller, r.statuses, op.now), r.limit);
      ChosenIds(w, op.caller, r.statuses, op.now, r.limit);
      GrantAllFrame(Tick(w, op.now), chosen, r.owner, op.now + r.duration, op.now);
      GrantsLeaveTenures(Tick(w, op.now), chosen, r.owner, op.now + r.duration, op.now, t);
    }
  }

  lemma {:induction false} GrantsLeaveTenures(w: World, chosen: seq<Key>, owner: string, until: nat, now: nat, t: int)
    requires FenceOk(w.nextFence, w.tenures) && t in w.tenures
    ensures var w' := GrantAll(w, chosen, owner, until, now);
            t in w'.tenures && w'.tenures[t] == w.tenures[t] && w.nextFence <= w'.nextFence
  {
    if chosen != [] { GrantsLeaveTenures(w, chosen[..|chosen| - 1], owner, until, now, t); }
  }

  /** A new token's tenure begins now, under the owner and up to the limit that its lease record names. */
  lemma GrantIsRecorded(w: World, op: Op, t: int)
    requires Inv(w) && NewToken(w, Step(w, op), t)
    ensures var w' := Step(w, op);
            var id := w'.tenures[t].id;
            && id in w'.leases && w'.leases[id].token == t
            && w'.tenures[t] == Tenure(id, w'.leases[id].owner, op.now, w'.leases[id].until, None)
  {
    StepKeeps(w, op);
    StepGrantsFresh(w, op);
    NewTokenHasRecord(w, op, t);
    hide Step, WritesOk, AllTokensKnown, FenceOk;
    var w' := Step(w, op);
    assert LeaseOk(w'.tenures[t].id, w'.leases[w'.tenures[t].id], w'.tenures);
  }

  lemma NewTokenHasRecord(w: World, op: Op, t: int)
    requires NewToken(w, Step(w, op), t)
    ensures InForce(Step(w, op).leases, Step(w, op).tenures, t)
  {
    hide InForce, ClaimStep, RenewStep, ReleaseStep, ClaimReadyStep, CreateStep, UpdateStep;
    match op
    case Claim(caller, id, owner, duration, now) => ClaimToken(w, caller, id, owner, duration, now, t);
    case ClaimReady(caller, request, now) => ReadyToken(w, caller, request, now, t);
    case Renew(caller, held, duration, now) => RenewToken(w, caller, held, duration, now, t);
    case Release(caller, held, now) => ReleaseToken(w, caller, held, now, t);
    case _ => WritesMakeNoTenure(w, op);
  }

  lemma ReadyToken(w: World, caller: Principal, r: ReadyRequest, now: nat, t: int)
    requires NewToken(w, ClaimReadyStep(w, caller, r, now), t)
    ensures InForce(ClaimReadyStep(w, caller, r, now).leases, ClaimReadyStep(w, caller, r, now).tenures, t)
  {
    hide InForce, GrantAll, Oldest, ReadyKeys, ValidWorkerName, Blank;
    if ValidReadyRequest(r) && caller.Authenticated() {
      ChosenIds(w, caller, r.statuses, now, r.limit);
      GrantsAreInForce(Tick(w, now), Oldest(ReadyKeys(w, caller, r.statuses, now), r.limit), r.owner, now + r.duration, now, t);
    }
  }

  lemma WritesMakeNoTenure(w: World, op: Op)
    requires op.Create? || op.Update?
    ensures Step(w, op).tenures == w.tenures
  {
    hide ValidCheckpoint, MayStore, LeaseAllows, ValidUpdate;
  }

  lemma ClaimToken(w: World, caller: Principal, id: string, owner: string, duration: int, now: nat, t: int)
    requires NewToken(w, ClaimStep(w, caller, id, owner, duration, now).0, t)
    ensures var w' := ClaimStep(w, caller, id, owner, duration, now).0; InForce(w'.leases, w'.tenures, t)
  {
    hide Terminal, ValidLeaseRequest, Blank;
  }

  lemma RenewToken(w: World, caller: Principal, held: ExecutionClaim, duration: int, now: nat, t: int)
    ensures !NewToken(w, RenewStep(w, caller, held, duration, now).0, t)
  {
    hide ValidLeaseRequest, Blank;
  }

  lemma ReleaseToken(w: World, caller: Principal, held: ExecutionClaim, now: nat, t: int)
    ensures !NewToken(w, ReleaseStep(w, caller, held, now).0, t)
  {
    hide Blank;
  }

  lemma {:induction false} GrantsAreInForce(w: World, chosen: seq<Key>, owner: string, until: nat, now: nat, t: int)
    requires DistinctIds(chosen) && NewToken(w, GrantAll(w, chosen, owner, until, now), t)
    ensures InForce(GrantAll(w, chosen, owner, until, now).leases, GrantAll(w, chosen, owner, until, now).tenures, t)
    ensures GrantAll(w, chosen, owner, until, now).tenures[t].id in Ids(chosen)
  {
    var n := |chosen| - 1;
    IdsOfFront(chosen);
    var w0 := GrantAll(w, chosen[..n], owner, until, now);
    if t != w0.nextFence + 1 {
      GrantsAreInForce(w, chosen[..n], owner, until, now, t);
    }
  }
}
