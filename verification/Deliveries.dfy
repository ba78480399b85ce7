/**
 Any number of delivery workers over one outbox. The outbox knows a lease only by its
 owner's name. The history gives every claim a number it does not have in the program;
 the main claim is that, with distinct worker names and one RunOnce at a time per worker,
 the name alone refuses exactly what comparing the numbers would refuse.
 */
module Deliveries {
  import opened Results
  import opened Text
  import opened Ordering
  import opened Checkpoint
  import opened Outbox
  import opened Backoff

  /** What all workers of the outbox agree on. */
  datatype Settings = Settings(maxAttempts: int, base: int, ceiling: int) {
    predicate Valid() {
      1 <= maxAttempts <= 1000 && ValidDelays(base, ceiling)
    }
  }

  /** A claimed delivery as the worker saw it, with the number of its claim. */
  datatype Entry = Entry(id: string, delivery: Delivery, ticket: nat)

  /** The latest claim of an item, open until it is acknowledged or failed. */
  datatype Holder = Holder(ticket: nat, worker: string, open: bool)

  /** `batches` holds, for each worker inside RunOnce, the deliveries it has still to settle. */
  datatype World = World(
    items: Items, batches: map<string, seq<Entry>>,
    latest: map<string, Holder>, nextTicket: nat, failures: map<string, nat>)

  const EMPTY := World(map[], map[], map[], 0, map[])

  datatype Step =
    | EnqueueEvent(caller: Principal, event: Event, now: nat)
    | BeginRun(caller: Principal, request: LeaseRequest)
    | SettleNext(caller: Principal, worker: string, delivered: bool, backoffFrom: nat, at: nat, error: string)
    | EndRun(worker: string)
    | RequeueEvent(caller: Principal, id: string, at: nat)

  /** One RunOnce at a time per worker name. */
  predicate Enabled(w: World, step: Step) {
    match step
    case BeginRun(_, request) => request.workerID !in w.batches
    case SettleNext(_, worker, _, _, _, _) => worker in w.batches && w.batches[worker] != []
    case EndRun(worker) => worker in w.batches
    case _ => true
  }

  /** What RunOnce reports when its sink refuses a delivery. */
  function FailureOf(s: Settings, worker: string, seen: Delivery, backoffFrom: nat, at: nat, error: string): DeliveryFailure
    requires s.Valid()
  {
    var attempt := seen.attempts + 1;
    var dead := attempt >= s.maxAttempts;
    DelayIsMonotone(s.base, s.ceiling, attempt, attempt);
    DeliveryFailure(worker, at, error, if dead then 0 else backoffFrom + Delay(s.base, s.ceiling, attempt), dead)
  }

  /** The chosen items' latest claim becomes the one of this number. */
  function Opened(latest: map<string, Holder>, chosen: seq<Key>, ticket: nat, worker: string): map<string, Holder> {
    map id | id in latest.Keys + Ids(chosen) :: if id in Ids(chosen) then Holder(ticket, worker, true) else latest[id]
  }

  function Closed(latest: map<string, Holder>, id: string): map<string, Holder> {
    if id in latest then latest[id := latest[id].(open := false)] else latest
  }

  function Close(w: World, id: string): World {
    w.(latest := Closed(w.latest, id))
  }

  ghost function Entries(items: Items, chosen: seq<Key>, worker: string, until: nat, ticket: nat): seq<Entry>
    requires forall k :: k in chosen ==> k.id in items
  {
    seq(|chosen|, i requires 0 <= i < |chosen| => Entry(chosen[i].id, Held(items[chosen[i].id], worker, until), ticket))
  }

  /** The chosen items pass to the worker under the next number. */
  ghost function Hand(w: World, chosen: seq<Key>, r: LeaseRequest): World
    requires forall k :: k in chosen ==> k.id in w.items
    requires r.duration >= 0
  {
    var until := r.now + r.duration;
    World(HoldAll(w.items, chosen, r.workerID, until),
          w.batches[r.workerID := Entries(w.items, chosen, r.workerID, until, w.nextTicket)],
          Opened(w.latest, chosen, w.nextTicket, r.workerID), w.nextTicket + 1, w.failures)
  }

  ghost function Begin(w: World, caller: Principal, r: LeaseRequest): World {
    if !ClaimGranted(caller, r) then w
    else
      ChosenExist(w.items, caller.tenantID, r);
      Hand(w, Chosen(w.items, caller.tenantID, r), r)
  }

  function Settle(s: Settings, w: World, step: Step): World
    requires s.Valid() && step.SettleNext? && Enabled(w, step)
  {
    var entry := w.batches[step.worker][0];
    var rest := w.(batches := w.batches[step.worker := w.batches[step.worker][1..]]);
    if step.delivered then
      var (items, r) := AcknowledgeStep(w.items, step.caller, entry.id, step.worker, step.at);
      if r.Ok? then Close(rest, entry.id).(items := items) else rest
    else
      var f := FailureOf(s, step.worker, entry.delivery, step.backoffFrom, step.at, step.error);
      var (items, r) := FailStep(w.items, step.caller, entry.id, f);
      if r.Ok? then
        var before := if entry.id in w.failures then w.failures[entry.id] else 0;
        Close(rest, entry.id).(items := items, failures := w.failures[entry.id := before + 1])
      else rest
  }

  ghost function Take(s: Settings, w: World, step: Step): World
    requires s.Valid() && Enabled(w, step)
  {
    match step
    case EnqueueEvent(caller, e, now) =>
      var items := EnqueueStep(w.items, caller, e, now).0;
      w.(items := items, failures := if e.id in items && e.id !in w.items then w.failures[e.id := 0] else w.failures)
    case BeginRun(caller, r) => Begin(w, caller, r)
    case SettleNext(_, _, _, _, _, _) => Settle(s, w, step)
    case EndRun(worker) => w.(batches := w.batches - {worker})
    case RequeueEvent(caller, id, at) =>
      var (items, r) := RequeueStep(w.items, caller, id, at);
      if r.Ok? then w.(items := items, failures := w.failures[id := 0]) else w
  }

  ghost predicate Possible(s: Settings, steps: seq<Step>)
    requires s.Valid()
    decreases |steps|, 0
  {
    steps != [] ==>
      var front := steps[..|steps| - 1];
      Possible(s, front) && Enabled(Run(s, front), steps[|steps| - 1])
  }

  ghost function Run(s: Settings, steps: seq<Step>): World
    requires s.Valid() && Possible(s, steps)
    decreases |steps|, 1
  {
    if steps == [] then EMPTY
    else Take(s, Run(s, steps[..|steps| - 1]), steps[|steps| - 1])
  }

  // ---- What every reachable state satisfies ----

  /** A leased item is neither delivered nor dead; never both; dead exactly at the last attempt. */
  predicate ItemOk(s: Settings, d: Delivery, failures: nat) {
    && (d.leaseOwner != "" ==> d.Pending())
    && !(d.deliveredAt != 0 && d.deadLetteredAt != 0)
    && d.attempts == failures <= s.maxAttempts
    && (d.deadLetteredAt != 0 <==> d.attempts == s.maxAttempts)
  }

  /** The owner's name on the item is the worker of the latest claim, while that is open. */
  predicate HolderOk(w: World, id: string)
    requires id in w.items
  {
    && (w.items[id].leaseOwner != "" <==> id in w.latest && w.latest[id].open)
    && (id in w.latest ==> w.latest[id].ticket < w.nextTicket)
    && (id in w.latest && w.latest[id].open ==> w.latest[id].worker == w.items[id].leaseOwner)
  }

  predicate Current(w: World, entry: Entry) {
    entry.id in w.latest && w.latest[entry.id].open && w.latest[entry.id].ticket == entry.ticket
  }

  predicate EntryOk(w: World, worker: string, entry: Entry) {
    && entry.id in w.items && entry.id in w.latest
    && entry.delivery.event == w.items[entry.id].event
    && entry.ticket < w.nextTicket
    && (Current(w, entry) ==>
          w.latest[entry.id].worker == worker && entry.delivery.attempts == w.items[entry.id].attempts)
    && (w.latest[entry.id].worker == worker && w.latest[entry.id].open ==> Current(w, entry))
  }

  ghost predicate BatchOk(w: World, worker: string, batch: seq<Entry>) {
    && worker != ""
    && (forall i :: 0 <= i < |batch| ==> EntryOk(w, worker, batch[i]))
    && (forall i, j :: 0 <= i < j < |batch| ==> batch[i].id != batch[j].id)
  }

  ghost predicate ItemsInv(s: Settings, items: Items, failures: map<string, nat>) {
    ItemsOk(items) && items.Keys == failures.Keys
    && forall id :: id in items ==> ItemOk(s, items[id], failures[id])
  }

  ghost predicate Inv(s: Settings, w: World) {
    && ItemsInv(s, w.items, w.failures)
    && w.latest.Keys <= w.items.Keys
    && (forall id :: id in w.items ==> HolderOk(w, id))
    && (forall worker :: worker in w.batches ==> BatchOk(w, worker, w.batches[worker]))
  }

  lemma BeginKeeps(s: Settings, w: World, caller: Principal, r: LeaseRequest)
    requires s.Valid() && Inv(s, w) && r.workerID !in w.batches
    ensures Inv(s, Begin(w, caller, r))
  {
    hide Inv, Hand, Chosen, Delivery.Claimable;
    if ClaimGranted(caller, r) {
      ChosenAreClaimable(w.items, caller.tenantID, r);
      HandKeeps(s, w, Chosen(w.items, caller.tenantID, r), r, caller.tenantID);
    }
  }

  lemma HandKeeps(s: Settings, w: World, chosen: seq<Key>, r: LeaseRequest, tenantID: string)
    requires Inv(s, w) && ValidLeaseRequest(r) && r.workerID !in w.batches
    requires forall k :: k in chosen ==> k.id in w.items && w.items[k.id].Claimable(tenantID, r.now)
    requires forall i, j :: 0 <= i < j < |chosen| ==> chosen[i].id != chosen[j].id
    ensures Inv(s, Hand(w, chosen, r))
  {
    NamedWorker(r);
    HeldItems(s, w.items, w.failures, chosen, r, tenantID);
    HandShape(w, chosen, r);
    hide Hand, ItemsInv, ValidLeaseRequest, Delivery.Claimable, HolderOk, EntryOk, HoldAll, Ids;
    var w' := Hand(w, chosen, r);
    forall id | id in w'.items
      ensures HolderOk(w', id)
    {
      HandHolder(w, chosen, r, id);
    }
    HandBatch(w, chosen, r);
    forall worker | worker in w'.batches && worker != r.workerID
      ensures BatchOk(w', worker, w'.batches[worker])
    {
      var batch := w.batches[worker];
      assert BatchOk(w, worker, batch);
      forall i | 0 <= i < |batch|
        ensures EntryOk(w', worker, batch[i])
      {
        HandEntry(w, chosen, r, worker, batch[i]);
      }
    }
  }

  lemma HandShape(w: World, chosen: seq<Key>, r: LeaseRequest)
    requires r.duration >= 0 && w.latest.Keys <= w.items.Keys
    requires forall k :: k in chosen ==> k.id in w.items
    ensures var w' := Hand(w, chosen, r);
            && w'.items == HoldAll(w.items, chosen, r.workerID, r.now + r.duration)
            && w'.items.Keys == w.items.Keys && w'.latest.Keys <= w'.items.Keys && w'.failures == w.failures
            && w'.batches.Keys == w.batches.Keys + {r.workerID}
            && forall worker :: worker in w.batches && worker != r.workerID ==> w'.batches[worker] == w.batches[worker]
  {}

  lemma HandHolder(w: World, chosen: seq<Key>, r: LeaseRequest, id: string)
    requires r.duration >= 0 && r.workerID != "" && id in w.items && HolderOk(w, id)
    requires forall k :: k in chosen ==> k.id in w.items
    ensures HolderOk(Hand(w, chosen, r), id)
  {}

  lemma HandEntry(w: World, chosen: seq<Key>, r: LeaseRequest, worker: string, entry: Entry)
    requires r.duration >= 0 && worker != r.workerID && EntryOk(w, worker, entry)
    requires forall k :: k in chosen ==> k.id in w.items
    ensures EntryOk(Hand(w, chosen, r), worker, entry)
  {}

  lemma NamedWorker(r: LeaseRequest)
    requires ValidLeaseRequest(r)
    ensures r.workerID != "" && r.duration >= 0
  {}

  lemma HeldItems(s: Settings, items: Items, failures: map<string, nat>, chosen: seq<Key>, r: LeaseRequest, tenantID: string)
    requires ItemsInv(s, items, failures) && ValidLeaseRequest(r)
    requires forall k :: k in chosen ==> k.id in items && items[k.id].Claimable(tenantID, r.now)
    ensures ItemsInv(s, HoldAll(items, chosen, r.workerID, r.now + r.duration), failures)
  {
    hide ValidWorkerName;
    var items' := HoldAll(items, chosen, r.workerID, r.now + r.duration);
    HoldKeepsItemsOk(items, chosen, r);
    hide ItemsOk;
    forall id | id in items'
      ensures ItemOk(s, items'[id], failures[id])
    {
      assert ItemOk(s, items[id], failures[id]);
    }
  }

  lemma HandBatch(w: World, chosen: seq<Key>, r: LeaseRequest)
    requires forall k :: k in chosen ==> k.id in w.items
    requires forall i, j :: 0 <= i < j < |chosen| ==> chosen[i].id != chosen[j].id
    requires r.workerID != "" && r.duration >= 0
    ensures var w' := Hand(w, chosen, r);
            r.workerID in w'.batches && BatchOk(w', r.workerID, w'.batches[r.workerID])
  {
    var w' := Hand(w, chosen, r);
    HoldReaches(w.items, chosen, r.workerID, r.now + r.duration);
    var batch := w'.batches[r.workerID];
    forall i | 0 <= i < |batch|
      ensures EntryOk(w', r.workerID, batch[i])
    {
      assert chosen[i] in chosen;
      assert chosen[i].id in Ids(chosen);
    }
  }

  /** Settling one item leaves every other item and claim as it was. */
  lemma SettledOk(s: Settings, w: World, d: Delivery, failures: map<string, nat>, id: string)
    requires Inv(s, w) && id in w.items && id in w.latest
    requires d.event == w.items[id].event && d.leaseOwner == ""
    requires ItemsInv(s, w.items[id := d], failures)
    ensures Inv(s, Close(w, id).(items := w.items[id := d], failures := failures))
  {
    hide ItemsInv;
    var w' := Close(w, id).(items := w.items[id := d], failures := failures);
    forall x | x in w'.items
      ensures HolderOk(w', x)
    {
      assert HolderOk(w, x);
    }
    forall other | other in w'.batches
      ensures BatchOk(w', other, w'.batches[other])
    {
      var batch := w'.batches[other];
      assert BatchOk(w, other, batch);
      forall i | 0 <= i < |batch|
        ensures EntryOk(w', other, batch[i])
      {
        assert EntryOk(w, other, batch[i]);
      }
    }
  }

  lemma DroppedOk(s: Settings, w: World, worker: string)
    requires Inv(s, w) && worker in w.batches && w.batches[worker] != []
    ensures Inv(s, w.(batches := w.batches[worker := w.batches[worker][1..]]))
  {
    var w' := w.(batches := w.batches[worker := w.batches[worker][1..]]);
    forall x | x in w'.items
      ensures HolderOk(w', x)
    {
      assert HolderOk(w, x);
    }
    forall other | other in w'.batches
      ensures BatchOk(w', other, w'.batches[other])
    {
      assert BatchOk(w, other, w.batches[other]);
      var batch := w'.batches[other];
      forall i | 0 <= i < |batch|
        ensures EntryOk(w', other, batch[i])
      {
        assert EntryOk(w, other, if other == worker then w.batches[other][i + 1] else batch[i]);
      }
    }
  }

  lemma DeliveredItems(s: Settings, items: Items, failures: map<string, nat>, id: string, at: nat)
    requires ItemsInv(s, items, failures) && id in items && items[id].leaseOwner != "" && at != 0
    ensures ItemsInv(s, items[id := Delivered(items[id], at)], failures)
  {
    assert ItemOk(s, items[id], failures[id]);
  }

  lemma FailedItems(s: Settings, items: Items, failures: map<string, nat>, id: string, f: DeliveryFailure)
    requires ItemsInv(s, items, failures) && id in items && items[id].leaseOwner != "" && f.at != 0
    requires f.deadLetter <==> items[id].attempts + 1 >= s.maxAttempts
    ensures ItemsInv(s, items[id := FailedDelivery(items[id], f)], failures[id := failures[id] + 1])
  {
    hide BoundedError;
    assert ItemOk(s, items[id], failures[id]);
  }

  lemma SettleKeeps(s: Settings, w: World, step: Step)
    requires s.Valid() && Inv(s, w) && step.SettleNext? && Enabled(w, step)
    ensures Inv(s, Settle(s, w, step))
  {
    hide Inv, Blank, BoundedError, Current;
    var entry := w.batches[step.worker][0];
    var rest := w.(batches := w.batches[step.worker := w.batches[step.worker][1..]]);
    DroppedOk(s, w, step.worker);
    NameMeansCurrent(s, w, step.worker, 0);
    HolderOfName(s, w, entry.id);
    if step.delivered {
      if AcknowledgeStep(w.items, step.caller, entry.id, step.worker, step.at).1.Ok? {
        ItemsOfInv(s, w);
        DeliveredItems(s, w.items, w.failures, entry.id, step.at);
        SettledOk(s, rest, Delivered(w.items[entry.id], step.at), w.failures, entry.id);
      }
    } else {
      var f := FailureOf(s, step.worker, entry.delivery, step.backoffFrom, step.at, step.error);
      if FailStep(w.items, step.caller, entry.id, f).1.Ok? {
        ItemsOfInv(s, w);
        FailedItems(s, w.items, w.failures, entry.id, f);
        SettledOk(s, rest, FailedDelivery(w.items[entry.id], f), w.failures[entry.id := w.failures[entry.id] + 1], entry.id);
      }
    }
  }

  lemma ItemsOfInv(s: Settings, w: World)
    requires Inv(s, w)
    ensures ItemsInv(s, w.items, w.failures)
  {}

  lemma HolderOfName(s: Settings, w: World, id: string)
    requires Inv(s, w) && id in w.items
    ensures w.items[id].leaseOwner != "" ==> id in w.latest && w.latest[id].open
    ensures id in w.failures
  {
    assert HolderOk(w, id);
  }

  /** Whether the name on the item is this worker's says whether the claim is the latest and still open. */
  lemma NameMeansCurrent(s: Settings, w: World, worker: string, i: nat)
    requires Inv(s, w) && worker in w.batches && i < |w.batches[worker]|
    ensures var entry := w.batches[worker][i];
            && entry.id in w.items && worker != ""
            && (w.items[entry.id].leaseOwner == worker <==> Current(w, entry))
            && (Current(w, entry) ==> entry.delivery.attempts == w.items[entry.id].attempts)
            && entry.delivery.event == w.items[entry.id].event
  {
    assert BatchOk(w, worker, w.batches[worker]);
    var entry := w.batches[worker][i];
    assert EntryOk(w, worker, entry);
    assert HolderOk(w, entry.id);
  }

  /** Changes that touch no claim, no batch and no leased item. */
  lemma UnclaimedOk(s: Settings, w: World, items: Items, failures: map<string, nat>)
    requires Inv(s, w) && ItemsInv(s, items, failures)
    requires w.items.Keys <= items.Keys
    requires forall id :: id in w.items ==> items[id].event == w.items[id].event
    requires forall id :: id in w.items && items[id] != w.items[id] ==>
               items[id].leaseOwner == w.items[id].leaseOwner == ""
    requires forall id :: id in items && id !in w.items ==> items[id].leaseOwner == ""
    ensures Inv(s, w.(items := items, failures := failures))
  {
    hide ItemsInv;
    var w' := w.(items := items, failures := failures);
    forall id | id in items
      ensures HolderOk(w', id)
    {
      if id in w.items { assert HolderOk(w, id); }
    }
    forall worker | worker in w'.batches
      ensures BatchOk(w', worker, w'.batches[worker])
    {
      var batch := w.batches[worker];
      assert BatchOk(w, worker, batch);
      forall i | 0 <= i < |batch|
        ensures EntryOk(w', worker, batch[i])
      {
        assert EntryOk(w, worker, batch[i]) && HolderOk(w, batch[i].id);
      }
    }
  }

  lemma OthersKeep(s: Settings, w: World, step: Step)
    requires s.Valid() && Inv(s, w) && Enabled(w, step)
    requires step.EnqueueEvent? || step.RequeueEvent? || step.EndRun?
    ensures Inv(s, Take(s, w, step))
  {
    match step
    case EnqueueEvent(caller, e, now) => EnqueueKeeps(s, w, caller, e, now);
    case RequeueEvent(caller, id, at) => RequeueKeeps(s, w, caller, id, at);
    case EndRun(worker) =>
      hide ItemsInv;
      var w' := Take(s, w, step);
      forall id | id in w'.items
        ensures HolderOk(w', id)
      {
        assert HolderOk(w, id);
      }
      forall other | other in w'.batches
        ensures BatchOk(w', other, w'.batches[other])
      {
        assert BatchOk(w, other, w.batches[other]);
      }
  }

  lemma EnqueueKeeps(s: Settings, w: World, caller: Principal, e: Event, now: nat)
    requires s.Valid() && Inv(s, w)
    ensures Inv(s, Take(s, w, EnqueueEvent(caller, e, now)))
  {
    hide Blank, HolderOk, BatchOk;
    var w' := Take(s, w, EnqueueEvent(caller, e, now));
    if w'.items != w.items {
      forall id | id in w'.items
        ensures ItemOk(s, w'.items[id], w'.failures[id])
      {
        if id in w.items { assert ItemOk(s, w.items[id], w.failures[id]); }
      }
      UnclaimedOk(s, w, w'.items, w'.failures);
    }
  }

  lemma RequeueKeeps(s: Settings, w: World, caller: Principal, id: string, at: nat)
    requires s.Valid() && Inv(s, w)
    ensures Inv(s, Take(s, w, RequeueEvent(caller, id, at)))
  {
    hide Blank, HolderOk, BatchOk;
    var w' := Take(s, w, RequeueEvent(caller, id, at));
    if id in w.items && RequeueStep(w.items, caller, id, at).1.Ok? {
      assert ItemOk(s, w.items[id], w.failures[id]);
      UnclaimedOk(s, w, w'.items, w'.failures);
    }
  }

  lemma TakeKeeps(s: Settings, w: World, step: Step)
    requires s.Valid() && Inv(s, w) && Enabled(w, step)
    ensures Inv(s, Take(s, w, step))
  {
    hide Inv;
    match step
    case BeginRun(caller, r) => BeginKeeps(s, w, caller, r);
    case SettleNext(_, _, _, _, _, _) => SettleKeeps(s, w, step);
    case _ => OthersKeep(s, w, step);
  }

  lemma {:induction false} RunKeeps(s: Settings, steps: seq<Step>)
    requires s.Valid() && Possible(s, steps)
    ensures Inv(s, Run(s, steps))
  {
    if steps != [] {
      RunKeeps(s, steps[..|steps| - 1]);
      TakeKeeps(s, Run(s, steps[..|steps| - 1]), steps[|steps| - 1]);
    }
  }

  // ---- The claims ----

  /**
   In every interleaving, with lease expiry anywhere in it: the outbox takes a worker's
   acknowledgement or failure of a claimed item exactly when that claim is the latest of
   the item and unsettled. A late report from a superseded claim is refused.
   */
  lemma OwnerNameActsAsFence(s: Settings, steps: seq<Step>, worker: string, i: nat,
                             caller: Principal, at: nat, f: DeliveryFailure)
    requires s.Valid() && Possible(s, steps)
    requires var w := Run(s, steps); worker in w.batches && i < |w.batches[worker]|
    requires f.workerID == worker && ValidFailure(f) && at != 0 && caller.Authenticated()
    requires var w := Run(s, steps);
             w.batches[worker][i].delivery.event.tenantID == caller.tenantID
    ensures var w := Run(s, steps);
            var entry := w.batches[worker][i];
            && (AcknowledgeStep(w.items, caller, entry.id, worker, at).1.Ok? <==> Current(w, entry))
            && (FailStep(w.items, caller, entry.id, f).1.Ok? <==> Current(w, entry))
  {
    hide Inv, Current;
    RunKeeps(s, steps);
    NameMeansCurrent(s, Run(s, steps), worker, i);
  }

  /**
   In every interleaving: stored attempts are the failures accepted since the event was
   enqueued or requeued; they stay below the maximum while the item is live, and the item
   is dead-lettered exactly when they reach it. A leased item is neither delivered nor
   dead-lettered, and no item is both.
   */
  lemma AttemptsCountAcceptedFailures(s: Settings, steps: seq<Step>, id: string)
    requires s.Valid() && Possible(s, steps) && id in Run(s, steps).items
    ensures var w := Run(s, steps);
            var d := w.items[id];
            && id in w.failures && d.attempts == w.failures[id]
            && (d.Pending() ==> d.attempts < s.maxAttempts)
            && (d.deadLetteredAt != 0 <==> d.attempts == s.maxAttempts)
            && (d.leaseOwner != "" ==> d.Pending())
            && !(d.deliveredAt != 0 && d.deadLetteredAt != 0)
  {
    RunKeeps(s, steps);
    assert ItemOk(s, Run(s, steps).items[id], Run(s, steps).failures[id]);
  }

  /** A step neither drops nor alters an event, and leaves a delivered item exactly as it is. */
  lemma TakePreserves(s: Settings, w: World, step: Step, id: string)
    requires s.Valid() && Inv(s, w) && Enabled(w, step) && id in w.items
    ensures var w' := Take(s, w, step);
            && id in w'.items && w'.items[id].event == w.items[id].event
            && (w.items[id].deliveredAt != 0 ==> w'.items[id] == w.items[id])
  {
    hide Blank, BoundedError, ValidWorkerName;
    assert ItemOk(s, w.items[id], w.failures[id]) && HolderOk(w, id);
    match step
    case BeginRun(caller, r) =>
      if ClaimGranted(caller, r) { ClaimSparesEvents(w.items, caller, r, id); }
    case SettleNext(_, worker, _, _, _, _) =>
      NameMeansCurrent(s, w, worker, 0);
    case _ =>
  }

  lemma ClaimSparesEvents(items: Items, caller: Principal, r: LeaseRequest, id: string)
    requires ClaimGranted(caller, r) && id in items
    ensures id in ClaimStep(items, caller, r) && ClaimStep(items, caller, r)[id].event == items[id].event
    ensures items[id].deliveredAt != 0 ==> ClaimStep(items, caller, r)[id] == items[id]
  {
    ChosenAreClaimable(items, caller.tenantID, r);
  }

  /** Over every run, no event is lost or altered and a delivery is permanent. */
  lemma {:induction false} EventsAreKept(s: Settings, steps: seq<Step>, earlier: nat, id: string)
    requires s.Valid() && Possible(s, steps) && earlier <= |steps|
    requires Possible(s, steps[..earlier]) && id in Run(s, steps[..earlier]).items
    ensures var before, after := Run(s, steps[..earlier]), Run(s, steps);
            && id in after.items && after.items[id].event == before.items[id].event
            && (before.items[id].deliveredAt != 0 ==> after.items[id] == before.items[id])
    decreases |steps|
  {
    hide Inv, Take, Enabled;
    if earlier == |steps| {
      assert steps[..earlier] == steps;
    } else {
      var front := steps[..|steps| - 1];
      assert front[..earlier] == steps[..earlier];
      EventsAreKept(s, front, earlier, id);
      RunKeeps(s, front);
      TakePreserves(s, Run(s, front), steps[|steps| - 1], id);
    }
  }
}
