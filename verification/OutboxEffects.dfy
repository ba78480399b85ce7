/**
 What filing, claiming, delivering, failing and requeueing do to an item, field by field, and
 how long a lease and a planned retry keep an item to themselves over every run that follows.
 */
module OutboxEffects {
  import opened Results
  import opened Text
  import opened Ordering
  import opened Checkpoint
  import opened Outbox
  import opened Backoff
  import opened Deliveries

  /** The caller's own item, held by this worker. */
  predicate HeldBy(items: Items, caller: Principal, id: string, worker: string) {
    id in items && items[id].event.tenantID == caller.tenantID && items[id].leaseOwner == worker
  }

  /** Only this item may differ, and it keeps its event and the time it was filed. */
  predicate OnlyChanges(items: Items, items': Items, id: string) {
    && id in items && id in items' && items' == items[id := items'[id]]
    && items'[id].event == items[id].event && items'[id].createdAt == items[id].createdAt
  }

  predicate Unleased(d: Delivery) {
    d.leaseOwner == "" && d.leaseUntil == 0
  }

  lemma EnqueueEffect(items: Items, caller: Principal, e: Event, now: nat)
    ensures var (items', r) := EnqueueStep(items, caller, e, now);
            && (r.Ok? <==>
                  && caller.Authenticated() && caller.tenantID == e.tenantID
                  && !Blank(e.id) && !Blank(e.kind) && !Blank(e.tenantID) && e.timestamp != 0
                  && (e.id in items ==> items[e.id].event == e))
            && (r.Err? || e.id in items ==> items' == items)
            && (r.Ok? && e.id !in items ==>
                  && e.id in items' && items' == items[e.id := items'[e.id]]
                  && var d := items'[e.id];
                     && d.event == e && d.createdAt == now && d.attempts == 0 && Unleased(d) && d.Pending()
                     && d.nextAttemptAt == 0 && d.lastAttemptAt == 0 && d.lastError == "")
  {
    hide Blank, Principal.Authenticated;
  }

  lemma AcknowledgeEffect(items: Items, caller: Principal, id: string, worker: string, at: nat)
    ensures var (items', r) := AcknowledgeStep(items, caller, id, worker, at);
            && (r.Ok? <==> caller.Authenticated() && !Blank(worker) && at != 0 && HeldBy(items, caller, id, worker))
            && (r.Err? ==> items' == items)
            && (r.Ok? ==>
                  && OnlyChanges(items, items', id)
                  && var was, after := items[id], items'[id];
                     && after.deliveredAt == at && Unleased(after) && after.lastError == ""
                     && after.attempts == was.attempts && after.lastAttemptAt == was.lastAttemptAt
                     && after.nextAttemptAt == was.nextAttemptAt && after.deadLetteredAt == was.deadLetteredAt)
  {
    hide Blank, Principal.Authenticated;
  }

  /** A failure counts, gives up the lease and puts the next attempt at the time given with it, or ends the item. */
  lemma FailEffect(items: Items, caller: Principal, id: string, f: DeliveryFailure)
    ensures var (items', r) := FailStep(items, caller, id, f);
            && (r.Ok? <==>
                  && caller.Authenticated() && !Blank(f.workerID) && f.at != 0
                  && (f.deadLetter || (f.nextAttemptAt != 0 && f.at <= f.nextAttemptAt))
                  && HeldBy(items, caller, id, f.workerID))
            && (r.Err? ==> items' == items)
            && (r.Ok? ==>
                  && OnlyChanges(items, items', id)
                  && var was, after := items[id], items'[id];
                     && after.attempts == was.attempts + 1 && after.lastAttemptAt == f.at && Unleased(after)
                     && after.lastError <= TrimSpace(f.error)
                     && |after.lastError| == (if |TrimSpace(f.error)| < 1024 then |TrimSpace(f.error)| else 1024)
                     && after.deliveredAt == was.deliveredAt
                     && (f.deadLetter ==> after.deadLetteredAt == f.at && after.nextAttemptAt == 0)
                     && (!f.deadLetter ==> after.deadLetteredAt == was.deadLetteredAt && after.nextAttemptAt == f.nextAttemptAt))
  {
    hide Blank, Principal.Authenticated, TrimSpace;
  }

  lemma RequeueEffect(items: Items, caller: Principal, id: string, at: nat)
    ensures var (items', r) := RequeueStep(items, caller, id, at);
            && (r.Ok? <==>
                  && caller.Authenticated() && at != 0 && id in items
                  && items[id].event.tenantID == caller.tenantID && items[id].deadLetteredAt != 0)
            && (r.Err? ==> items' == items)
            && (r.Ok? ==>
                  && OnlyChanges(items, items', id)
                  && var was, after := items[id], items'[id];
                     && after.attempts == 0 && after.deadLetteredAt == 0 && after.nextAttemptAt == at && Unleased(after)
                     && after.deliveredAt == was.deliveredAt && after.lastAttemptAt == was.lastAttemptAt
                     && after.lastError == was.lastError)
  {
    hide Principal.Authenticated;
  }

  /** Leases run from a second to a day, for one to a thousand items at a time. */
  lemma ClaimBounds(caller: Principal, r: LeaseRequest)
    ensures ClaimGranted(caller, r) <==>
            && caller.Authenticated() && ValidWorkerName(r.workerID) && r.now != 0 && 1 <= r.limit <= 1000
            && 1_000_000_000 <= r.duration <= 86_400_000_000_000
  {
    hide ValidWorkerName, Principal.Authenticated;
  }

  /** A claim leaves an item as it was, or leases it to the worker; it leases none that is settled, leased or waiting. */
  lemma ClaimEffect(items: Items, caller: Principal, r: LeaseRequest, id: string)
    requires ClaimGranted(caller, r) && id in items
    ensures var items' := ClaimStep(items, caller, r);
            && id in items'
            && (id !in Outbox.Ids(Chosen(items, caller.tenantID, r)) ==> items'[id] == items[id])
            && (id in Outbox.Ids(Chosen(items, caller.tenantID, r)) ==>
                  && items[id].event.tenantID == caller.tenantID && items[id].Pending()
                  && items[id].nextAttemptAt <= r.now && items[id].leaseUntil <= r.now
                  && items'[id].leaseOwner == r.workerID && items'[id].leaseUntil == r.now + r.duration
                  && items'[id].(leaseOwner := items[id].leaseOwner, leaseUntil := items[id].leaseUntil) == items[id])
  {
    ClaimTakesTheOldest(items, caller, r);
    hide ValidWorkerName, Chosen;
  }

  /** What a listing of pending deliveries may hold: the tenant's own, neither delivered nor dead. */
  lemma PendingIff(items: Items, tenantID: string, k: Key)
    ensures k in PendingKeys(items, tenantID) <==>
            && k.id in items && items[k.id].createdAt == k.time && items[k.id].event.tenantID == tenantID
            && items[k.id].deliveredAt == 0 && items[k.id].deadLetteredAt == 0
  {
    hide Outbox.Ids;
    if k.id in items { assert Key(items[k.id].createdAt, k.id) == k <==> k.time == items[k.id].createdAt; }
  }

  /** The listing holds all of these up to the limit, a hundred when none is given, and skips none for a newer one. */
  lemma PendingListing(items: Items, tenantID: string, limit: nat)
    ensures var keys, listed := PendingKeys(items, tenantID), Oldest(PendingKeys(items, tenantID), PendingLimit(limit));
            var most := if limit == 0 then 100 else limit;
            && |listed| == (if |keys| > most then most else |keys|)
            && (forall k :: k in listed ==> k in keys)
            && (forall taken, left :: taken in listed && left in keys && left !in listed ==> Before(taken, left))
  {
    hide PendingKeys, Before, Sorted;
    var keys := PendingKeys(items, tenantID);
    OldestIsFair(keys, PendingLimit(limit));
    var listed := Oldest(keys, PendingLimit(limit));
    forall k | k in listed ensures k in keys { assert k in Elements(listed); }
  }

  /** No step of another tenant's caller touches an item. */
  lemma OtherTenantsLeaveIt(items: Items, caller: Principal, id: string, r: LeaseRequest, other: string, worker: string,
                            at: nat, f: DeliveryFailure, e: Event)
    requires ItemsOk(items) && id in items && items[id].event.tenantID != caller.tenantID
    ensures id in EnqueueStep(items, caller, e, at).0 && EnqueueStep(items, caller, e, at).0[id] == items[id]
    ensures id in ClaimStep(items, caller, r) && ClaimStep(items, caller, r)[id] == items[id]
    ensures id in AcknowledgeStep(items, caller, other, worker, at).0
    ensures AcknowledgeStep(items, caller, other, worker, at).0[id] == items[id]
    ensures id in FailStep(items, caller, other, f).0 && FailStep(items, caller, other, f).0[id] == items[id]
    ensures id in RequeueStep(items, caller, other, at).0 && RequeueStep(items, caller, other, at).0[id] == items[id]
  {
    hide *;
    EnqueueEffect(items, caller, e, at);
    AcknowledgeEffect(items, caller, other, worker, at);
    FailEffect(items, caller, other, f);
    RequeueEffect(items, caller, other, at);
    TenantsDiffer(items, caller, id, other, worker, f.workerID);
    ClaimOrNot(items, caller, r, id);
  }

  lemma TenantsDiffer(items: Items, caller: Principal, id: string, other: string, worker: string, failing: string)
    requires id in items && items[id].event.tenantID != caller.tenantID
    ensures HeldBy(items, caller, other, worker) || HeldBy(items, caller, other, failing) ==> other != id
    ensures forall items' :: OnlyChanges(items, items', other) && other != id ==> id in items' && items'[id] == items[id]
  {}

  lemma ClaimOrNot(items: Items, caller: Principal, r: LeaseRequest, id: string)
    requires id in items && items[id].event.tenantID != caller.tenantID
    ensures id in ClaimStep(items, caller, r) && ClaimStep(items, caller, r)[id] == items[id]
  {
    hide HoldAll, Chosen;
    if ClaimGranted(caller, r) { ClaimEffect(items, caller, r, id); }
  }

  // ---- How long an item is left alone ----

  /** No claim before `limit`, and no report of this item by the worker whose name is on it. */
  predicate LeavesAlone(w: World, step: Step, id: string, limit: nat) {
    match step
    case BeginRun(_, r) => r.now < limit
    case SettleNext(_, worker, _, _, _, _) =>
      worker in w.batches && w.batches[worker] != [] && w.batches[worker][0].id == id && id in w.items ==>
        w.items[id].leaseOwner != worker
    case _ => true
  }

  ghost predicate LeftAlone(s: Settings, steps: seq<Step>, from: nat, id: string, limit: nat)
    requires s.Valid() && Possible(s, steps)
  {
    from < |steps| ==>
      var front := steps[..|steps| - 1];
      LeftAlone(s, front, from, id, limit) && LeavesAlone(Run(s, front), steps[|steps| - 1], id, limit)
  }

  /** The item is live, and its lease or its retry keeps it back until `limit`. */
  predicate KeptBack(items: Items, id: string, limit: nat) {
    && id in items && items[id].deadLetteredAt == 0
    && (limit <= items[id].nextAttemptAt || limit <= items[id].leaseUntil)
  }

  lemma StepLeavesItem(s: Settings, w: World, step: Step, id: string, limit: nat)
    requires s.Valid() && Inv(s, w) && Enabled(w, step)
    requires KeptBack(w.items, id, limit) && LeavesAlone(w, step, id, limit)
    ensures id in Take(s, w, step).items && Take(s, w, step).items[id] == w.items[id]
  {
    hide Inv, AcknowledgeStep, FailStep, EnqueueStep, RequeueStep, FailureOf;
    match step
    case EnqueueEvent(caller, e, now) => EnqueueEffect(w.items, caller, e, now);
    case BeginRun(caller, r) => if ClaimGranted(caller, r) { ClaimEffect(w.items, caller, r, id); }
    case SettleNext(caller, worker, delivered, backoffFrom, at, error) =>
      NameMeansCurrent(s, w, worker, 0);
      var entry := w.batches[worker][0];
      AcknowledgeEffect(w.items, caller, entry.id, worker, at);
      FailEffect(w.items, caller, entry.id, FailureOf(s, worker, entry.delivery, backoffFrom, at, error));
      NamesTheWorker(s, worker, entry.delivery, backoffFrom, at, error);
    case EndRun(_) =>
    case RequeueEvent(caller, other, at) => RequeueEffect(w.items, caller, other, at);
  }

  lemma NamesTheWorker(s: Settings, worker: string, seen: Delivery, backoffFrom: nat, at: nat, error: string)
    requires s.Valid()
    ensures var f := FailureOf(s, worker, seen, backoffFrom, at, error);
            && f.workerID == worker && f.at == at && f.error == error
            && (f.deadLetter <==> seen.attempts + 1 >= s.maxAttempts)
            && (!f.deadLetter ==> f.nextAttemptAt == backoffFrom + Delay(s.base, s.ceiling, seen.attempts + 1))
  {
    hide Delay;
  }

  lemma {:induction false} ItemStays(s: Settings, steps: seq<Step>, from: nat, id: string, limit: nat)
    requires s.Valid() && Possible(s, steps) && from <= |steps| && Possible(s, steps[..from])
    requires KeptBack(Run(s, steps[..from]).items, id, limit) && LeftAlone(s, steps, from, id, limit)
    ensures id in Run(s, steps).items && Run(s, steps).items[id] == Run(s, steps[..from]).items[id]
  {
    hide Inv, Take, Enabled, LeavesAlone;
    if from == |steps| {
      assert steps[..from] == steps;
    } else {
      var front := steps[..|steps| - 1];
      assert front[..from] == steps[..from];
      ItemStays(s, front, from, id, limit);
      RunKeeps(s, front);
      StepLeavesItem(s, Run(s, front), steps[|steps| - 1], id, limit);
    }
  }

  /** The k-th step takes the failure of an item that stays live. */
  ghost predicate FailsLive(s: Settings, steps: seq<Step>, k: nat, id: string)
    requires s.Valid() && k < |steps| && Possible(s, steps[..k]) && Possible(s, steps[..k + 1])
  {
    var before, after := Run(s, steps[..k]).items, Run(s, steps[..k + 1]).items;
    && steps[k].SettleNext? && id in before && id in after
    && after[id].attempts == before[id].attempts + 1 && after[id].deadLetteredAt == 0
  }

  /**
   Along every run: an item that failed and stays live can be claimed exactly from its planned
   retry on, that is the doubled delay for its attempts after the clock the worker planned by;
   and nothing changes it before that time.
   */
  lemma RetryWaitsForItsTime(s: Settings, steps: seq<Step>, k: nat, id: string)
    requires s.Valid() && Possible(s, steps) && k < |steps| && Possible(s, steps[..k]) && Possible(s, steps[..k + 1])
    requires FailsLive(s, steps, k, id)
    ensures var d := Run(s, steps[..k + 1]).items[id];
            var planned := steps[k].backoffFrom + Delay(s.base, s.ceiling, d.attempts);
            && d.nextAttemptAt == planned && planned >= 0
            && (forall now :: d.Claimable(d.event.tenantID, now) <==> planned <= now)
            && (LeftAlone(s, steps, k + 1, id, planned) ==> id in Run(s, steps).items && Run(s, steps).items[id] == d)
  {
    var w, step := Run(s, steps[..k]), steps[k];
    RunKeeps(s, steps[..k]);
    RunKeeps(s, steps[..k + 1]);
    assert steps[..k + 1][..k] == steps[..k];
    FailurePlansTheRetry(s, w, step, id);
    var d := Run(s, steps[..k + 1]).items[id];
    if LeftAlone(s, steps, k + 1, id, d.nextAttemptAt) { ItemStays(s, steps, k + 1, id, d.nextAttemptAt); }
  }

  lemma FailurePlansTheRetry(s: Settings, w: World, step: Step, id: string)
    requires s.Valid() && Inv(s, w) && Enabled(w, step) && step.SettleNext? && id in w.items
    requires var after := Take(s, w, step).items;
             id in after && after[id].attempts == w.items[id].attempts + 1 && after[id].deadLetteredAt == 0
    ensures var d := Take(s, w, step).items[id];
            var planned := step.backoffFrom + Delay(s.base, s.ceiling, d.attempts);
            && d.nextAttemptAt == planned && Unleased(d) && d.deliveredAt == 0
            && forall now :: d.Claimable(d.event.tenantID, now) <==> planned <= now
  {
    hide Inv, AcknowledgeStep, FailStep, FailureOf, Delay;
    NameMeansCurrent(s, w, step.worker, 0);
    var entry := w.batches[step.worker][0];
    var f := FailureOf(s, step.worker, entry.delivery, step.backoffFrom, step.at, step.error);
    AcknowledgeEffect(w.items, step.caller, entry.id, step.worker, step.at);
    FailEffect(w.items, step.caller, entry.id, f);
    NamesTheWorker(s, step.worker, entry.delivery, step.backoffFrom, step.at, step.error);
    LeasedIsPending(s, w, id);
  }

  lemma LeasedIsPending(s: Settings, w: World, id: string)
    requires Inv(s, w) && id in w.items
    ensures w.items[id].leaseOwner != "" ==> w.items[id].Pending()
  {
    assert ItemOk(s, w.items[id], w.failures[id]);
  }

  /**
   Along every run: a claimed item is the worker's for as long as the lease was asked for. Until
   then no claim takes it, and only its own worker's report changes it; from then on it can be
   claimed again.
   */
  lemma ClaimedItemIsLeftAlone(s: Settings, steps: seq<Step>, k: nat, id: string)
    requires s.Valid() && Possible(s, steps) && k < |steps| && Possible(s, steps[..k]) && Possible(s, steps[..k + 1])
    requires steps[k].BeginRun? && ClaimGranted(steps[k].caller, steps[k].request)
    requires id in Outbox.Ids(Chosen(Run(s, steps[..k]).items, steps[k].caller.tenantID, steps[k].request))
    ensures var r := steps[k].request;
            var items := Run(s, steps[..k + 1]).items;
            && id in items && items[id].leaseOwner == r.workerID && items[id].leaseUntil == r.now + r.duration
            && (LeftAlone(s, steps, k + 1, id, r.now + r.duration) ==>
                  id in Run(s, steps).items && Run(s, steps).items[id] == items[id])
            && forall now :: items[id].Claimable(steps[k].caller.tenantID, now) <==> r.now + r.duration <= now
  {
    hide Chosen, Inv, LeftAlone, ValidWorkerName, HoldAll, Opened, Entries;
    var w, caller, r := Run(s, steps[..k]), steps[k].caller, steps[k].request;
    assert steps[..k + 1][..k] == steps[..k];
    ChosenAreClaimable(w.items, caller.tenantID, r);
    ClaimEffect(w.items, caller, r, id);
    var limit := r.now + r.duration;
    if LeftAlone(s, steps, k + 1, id, limit) { ItemStays(s, steps, k + 1, id, limit); }
  }

  // ---- Runs ----

  /** The report a worker makes of the next delivery of its batch. */
  function Report(s: Settings, items: Items, entry: Entry, step: Step): Items
    requires s.Valid() && step.SettleNext?
  {
    if step.delivered then AcknowledgeStep(items, step.caller, entry.id, step.worker, step.at).0
    else FailStep(items, step.caller, entry.id,
                  FailureOf(s, step.worker, entry.delivery, step.backoffFrom, step.at, step.error)).0
  }

  /** What a run does to the outbox is what the outbox's operations do, one after the other. */
  lemma RunIsItsOperations(s: Settings, steps: seq<Step>, step: Step)
    requires s.Valid() && Possible(s, steps) && Enabled(Run(s, steps), step)
    ensures Possible(s, steps + [step])
    ensures var w, items := Run(s, steps), Run(s, steps + [step]).items;
            && (step.EnqueueEvent? ==> items == EnqueueStep(w.items, step.caller, step.event, step.now).0)
            && (step.BeginRun? ==> items == ClaimStep(w.items, step.caller, step.request))
            && (step.SettleNext? ==> items == Report(s, w.items, w.batches[step.worker][0], step))
            && (step.EndRun? ==> items == w.items)
            && (step.RequeueEvent? ==> items == RequeueStep(w.items, step.caller, step.id, step.at).0)
  {
    hide Take, EnqueueStep, ClaimStep, RequeueStep, Report;
    assert (steps + [step])[..|steps|] == steps;
    if step.SettleNext? { SettleReports(s, Run(s, steps), step); } else { TakeOperates(s, Run(s, steps), step); }
  }

  lemma SettleReports(s: Settings, w: Deliveries.World, step: Step)
    requires s.Valid() && step.SettleNext? && Enabled(w, step)
    ensures Take(s, w, step).items == Report(s, w.items, w.batches[step.worker][0], step)
  {
    hide ValidFailure, Blank, Principal.Authenticated, FailedDelivery, FailureOf, Delivered, Closed;
  }

  lemma TakeOperates(s: Settings, w: Deliveries.World, step: Step)
    requires s.Valid() && !step.SettleNext? && Enabled(w, step)
    ensures var items := Take(s, w, step).items;
            && (step.EnqueueEvent? ==> items == EnqueueStep(w.items, step.caller, step.event, step.now).0)
            && (step.BeginRun? ==> items == ClaimStep(w.items, step.caller, step.request))
            && (step.EndRun? ==> items == w.items)
            && (step.RequeueEvent? ==> items == RequeueStep(w.items, step.caller, step.id, step.at).0)
  {
    hide HoldAll, Chosen, ClaimGranted, EnqueueStep, Entries, Opened, Requeued, Blank, Principal.Authenticated;
  }
}
