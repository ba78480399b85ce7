/**
 The in-memory audit outbox: events waiting for delivery, and the leases under which
 delivery workers hold them. Times are nanoseconds since Go's zero time.
 */
module Outbox {
  import opened Results
  import opened Text
  import opened Ordering
  import opened Checkpoint

  const SECOND := 1_000_000_000

  /** `body` stands for the remaining fields, compared as their encoding. */
  datatype Event = Event(id: string, kind: string, timestamp: nat, tenantID: string, body: string)

  datatype Delivery = Delivery(
    event: Event, attempts: int, createdAt: nat, lastAttemptAt: nat, lastError: string,
    deliveredAt: nat, nextAttemptAt: nat, leaseOwner: string, leaseUntil: nat, deadLetteredAt: nat)
  {
    predicate Pending() {
      deliveredAt == 0 && deadLetteredAt == 0
    }

    predicate Claimable(tenantID: string, now: nat) {
      event.tenantID == tenantID && Pending() && nextAttemptAt <= now && leaseUntil <= now
    }
  }

  type Items = map<string, Delivery>

  datatype LeaseRequest = LeaseRequest(workerID: string, limit: int, duration: int, now: nat)

  datatype DeliveryFailure = DeliveryFailure(
    workerID: string, at: nat, error: string, nextAttemptAt: nat, deadLetter: bool)

  predicate ValidEvent(e: Event) {
    !Blank(e.id) && !Blank(e.kind) && e.timestamp != 0 && !Blank(e.tenantID)
  }

  predicate ValidLeaseRequest(r: LeaseRequest) {
    && ValidWorkerName(r.workerID) && 1 <= r.limit <= 1000
    && SECOND <= r.duration <= 24 * 3600 * SECOND && r.now != 0
  }

  predicate ValidFailure(f: DeliveryFailure) {
    && !Blank(f.workerID) && f.at != 0
    && (!f.deadLetter ==> f.nextAttemptAt != 0 && f.nextAttemptAt >= f.at)
  }

  function BoundedError(message: string): string {
    var trimmed := TrimSpace(message);
    if |trimmed| > 1024 then trimmed[..1024] else trimmed
  }

  // ---- What each operation does to the items ----

  function NewDelivery(e: Event, now: nat): Delivery {
    Delivery(e, 0, now, 0, "", 0, 0, "", 0, 0)
  }

  function EnqueueStep(items: Items, caller: Principal, e: Event, now: nat): (Items, Result<()>) {
    if !caller.Authenticated() || caller.tenantID != e.tenantID then (items, Err(PermissionError))
    else if !ValidEvent(e) then (items, Err(ConfigError))
    else if e.id !in items then (items[e.id := NewDelivery(e, now)], Ok(()))
    else if items[e.id].event == e then (items, Ok(()))
    else if items[e.id].event.tenantID != e.tenantID then (items, Err(PermissionError))
    else (items, Err(ConflictError))
  }

  function ClaimableKeys(items: Items, tenantID: string, now: nat): set<Key> {
    set id | id in items && items[id].Claimable(tenantID, now) :: Key(items[id].createdAt, id)
  }

  function Ids(chosen: seq<Key>): set<string> {
    set k | k in chosen :: k.id
  }

  function Held(d: Delivery, worker: string, until: nat): Delivery {
    d.(leaseOwner := worker, leaseUntil := until)
  }

  function HoldAll(items: Items, chosen: seq<Key>, worker: string, until: nat): Items {
    map id | id in items :: if id in Ids(chosen) then Held(items[id], worker, until) else items[id]
  }

  ghost function Chosen(items: Items, tenantID: string, r: LeaseRequest): seq<Key>
    requires r.limit >= 0
  {
    Oldest(ClaimableKeys(items, tenantID, r.now), r.limit)
  }

  ghost predicate ClaimGranted(caller: Principal, r: LeaseRequest) {
    ValidLeaseRequest(r) && caller.Authenticated()
  }

  ghost function ClaimStep(items: Items, caller: Principal, r: LeaseRequest): Items {
    if ClaimGranted(caller, r)
    then HoldAll(items, Chosen(items, caller.tenantID, r), r.workerID, r.now + r.duration)
    else items
  }

  function Delivered(d: Delivery, at: nat): Delivery {
    d.(deliveredAt := at, leaseOwner := "", leaseUntil := 0, lastError := "")
  }

  function AcknowledgeStep(items: Items, caller: Principal, id: string, worker: string, at: nat): (Items, Result<()>) {
    if !caller.Authenticated() then (items, Err(PermissionError))
    else if Blank(worker) || at == 0 then (items, Err(ConfigError))
    else if id !in items then (items, Err(NotFoundError))
    else if items[id].event.tenantID != caller.tenantID then (items, Err(PermissionError))
    else if items[id].leaseOwner != worker then (items, Err(ConflictError))
    else (items[id := Delivered(items[id], at)], Ok(()))
  }

  function FailedDelivery(d: Delivery, f: DeliveryFailure): Delivery {
    d.(attempts := d.attempts + 1, lastAttemptAt := f.at, lastError := BoundedError(f.error),
       leaseOwner := "", leaseUntil := 0,
       nextAttemptAt := if f.deadLetter then 0 else f.nextAttemptAt,
       deadLetteredAt := if f.deadLetter then f.at else d.deadLetteredAt)
  }

  function FailStep(items: Items, caller: Principal, id: string, f: DeliveryFailure): (Items, Result<()>) {
    if !ValidFailure(f) then (items, Err(ConfigError))
    else if !caller.Authenticated() then (items, Err(PermissionError))
    else if id !in items then (items, Err(NotFoundError))
    else if items[id].event.tenantID != caller.tenantID then (items, Err(PermissionError))
    else if items[id].leaseOwner != f.workerID then (items, Err(ConflictError))
    else (items[id := FailedDelivery(items[id], f)], Ok(()))
  }

  function Requeued(d: Delivery, at: nat): Delivery {
    d.(attempts := 0, deadLetteredAt := 0, nextAttemptAt := at, leaseOwner := "", leaseUntil := 0)
  }

  function RequeueStep(items: Items, caller: Principal, id: string, at: nat): (Items, Result<()>) {
    if !caller.Authenticated() then (items, Err(PermissionError))
    else if at == 0 then (items, Err(ConfigError))
    else if id !in items then (items, Err(NotFoundError))
    else if items[id].event.tenantID != caller.tenantID then (items, Err(PermissionError))
    else if items[id].deadLetteredAt == 0 then (items, Err(ConflictError))
    else (items[id := Requeued(items[id], at)], Ok(()))
  }

  /** Every item is filed under its event's identifier, and leased exactly while it has a limit. */
  predicate ItemsOk(items: Items) {
    forall id :: id in items ==>
      && items[id].event.id == id
      && (items[id].leaseOwner == "" <==> items[id].leaseUntil == 0)
  }

  function PendingKeys(items: Items, tenantID: string): set<Key> {
    set id | id in items && items[id].event.tenantID == tenantID && items[id].Pending() :: Key(items[id].createdAt, id)
  }

  /** The listing of pending deliveries: 100 of them when no limit is given. */
  function PendingLimit(limit: int): int {
    if limit == 0 then 100 else limit
  }

  // ---- Claims ----

  lemma ChosenAreClaimable(items: Items, tenantID: string, r: LeaseRequest)
    requires r.limit >= 0
    ensures var chosen := Chosen(items, tenantID, r);
            && (forall k :: k in chosen ==> k.id in items && items[k.id].Claimable(tenantID, r.now)
                                            && k == Key(items[k.id].createdAt, k.id))
            && (forall i, j :: 0 <= i < j < |chosen| ==> chosen[i].id != chosen[j].id)
  {
    var keys := ClaimableKeys(items, tenantID, r.now);
    var chosen := Chosen(items, tenantID, r);
    OldestIsFair(keys, r.limit);
    SortedIsDistinct(chosen);
    forall k | k in chosen
      ensures k in keys
    {
      assert k in Elements(chosen);
    }
  }

  lemma ChosenExist(items: Items, tenantID: string, r: LeaseRequest)
    requires r.limit >= 0
    ensures forall k :: k in Chosen(items, tenantID, r) ==> k.id in items
  {
    ChosenAreClaimable(items, tenantID, r);
  }

  /** A claim holds the oldest claimable items up to its limit, skips none for a newer one, and changes nothing else. */
  lemma ClaimTakesTheOldest(items: Items, caller: Principal, r: LeaseRequest)
    requires ClaimGranted(caller, r)
    ensures var items' := ClaimStep(items, caller, r);
            var keys := ClaimableKeys(items, caller.tenantID, r.now);
            var chosen := Chosen(items, caller.tenantID, r);
            && Sorted(chosen) && |chosen| == (if |keys| > r.limit then r.limit else |keys|)
            && (forall taken, left :: taken in chosen && left in keys && left !in chosen ==> Before(taken, left))
            && items'.Keys == items.Keys
            && (forall k :: k in chosen ==> k.id in items && items[k.id].Claimable(caller.tenantID, r.now)
                                            && items'[k.id] == Held(items[k.id], r.workerID, r.now + r.duration))
            && (forall id :: id in items && id !in Ids(chosen) ==> items'[id] == items[id])
  {
    hide ValidWorkerName, Before, Sorted, Oldest;
    var chosen := Chosen(items, caller.tenantID, r);
    OldestIsFair(ClaimableKeys(items, caller.tenantID, r.now), r.limit);
    ChosenAreClaimable(items, caller.tenantID, r);
    assert forall k :: k in chosen ==> k.id in Ids(chosen);
  }

  lemma HoldKeepsItemsOk(items: Items, chosen: seq<Key>, r: LeaseRequest)
    requires ItemsOk(items) && ValidLeaseRequest(r)
    ensures ItemsOk(HoldAll(items, chosen, r.workerID, r.now + r.duration))
  {}

  lemma HoldNone(items: Items, worker: string, until: nat)
    ensures HoldAll(items, [], worker, until) == items
  {}

  lemma HoldOneMore(items: Items, front: seq<Key>, k: Key, worker: string, until: nat)
    requires k.id in items
    ensures var held := HoldAll(items, front, worker, until);
            && k.id in held && Held(held[k.id], worker, until) == Held(items[k.id], worker, until)
            && held[k.id := Held(held[k.id], worker, until)] == HoldAll(items, front + [k], worker, until)
  {
    assert Ids(front + [k]) == Ids(front) + {k.id};
  }

  lemma HoldReaches(items: Items, chosen: seq<Key>, worker: string, until: nat)
    requires forall k :: k in chosen ==> k.id in items
    ensures forall i :: 0 <= i < |chosen| ==>
              && chosen[i].id in HoldAll(items, chosen, worker, until)
              && HoldAll(items, chosen, worker, until)[chosen[i].id] == Held(items[chosen[i].id], worker, until)
  {
    forall i | 0 <= i < |chosen|
      ensures chosen[i].id in Ids(chosen) && chosen[i] in chosen
    {
      assert chosen[i] in chosen;
    }
  }

  lemma PendingAreKnown(items: Items, tenantID: string, limit: nat)
    ensures forall i :: 0 <= i < |Oldest(PendingKeys(items, tenantID), limit)| ==>
              Oldest(PendingKeys(items, tenantID), limit)[i].id in items
  {
    var chosen := Oldest(PendingKeys(items, tenantID), limit);
    OldestIsFair(PendingKeys(items, tenantID), limit);
    forall i | 0 <= i < |chosen| ensures chosen[i].id in items {
      assert chosen[i] in Elements(chosen);
    }
  }

  class MemoryOutbox {
    var items: Items

    ghost predicate Valid()
      reads this
    {
      ItemsOk(items)
    }

    constructor ()
      ensures Valid() && items == map[]
    {
      items := map[];
    }

    method Enqueue(caller: Principal, event: Event, now: nat) returns (r: Result<()>)
      requires Valid()
      modifies this
      ensures Valid()
      ensures (items, r) == EnqueueStep(old(items), caller, event, now)
    {
      if !caller.Authenticated() || caller.tenantID != event.tenantID { return Err(PermissionError); }
      if !ValidEvent(event) { return Err(ConfigError); }
      if event.id in items {
        var existing := items[event.id].event;
        if existing.tenantID == event.tenantID && existing == event { return Ok(()); }
        if existing.tenantID != event.tenantID { return Err(PermissionError); }
        return Err(ConflictError);
      }
      items := items[event.id := NewDelivery(event, now)];
      return Ok(());
    }

    method Claim(caller: Principal, request: LeaseRequest) returns (r: Result<seq<Delivery>>)
      requires Valid()
      modifies this
      ensures Valid()
      ensures items == ClaimStep(old(items), caller, request)
      ensures r.Ok? <==> ClaimGranted(caller, request)
      ensures r.Ok? ==>
                var chosen := Chosen(old(items), caller.tenantID, request);
                && |r.value| == |chosen|
                && forall i :: 0 <= i < |chosen| ==>
                     && chosen[i].id in items && r.value[i] == items[chosen[i].id]
                     && r.value[i].leaseOwner == request.workerID
    {
      if !ValidLeaseRequest(request) { return Err(ConfigError); }
      if !caller.Authenticated() { return Err(PermissionError); }
      hide ValidWorkerName, Blank, Chosen, ItemsOk, HoldAll, Ids, Delivery.Claimable;
      var candidates := SelectOldest(caller.tenantID, request);
      ChosenExist(items, caller.tenantID, request);
      HoldKeepsItemsOk(items, candidates, request);
      var deliveries := HoldEach(candidates, request.workerID, request.now + request.duration);
      return Ok(deliveries);
    }

    method SelectOldest(tenantID: string, request: LeaseRequest) returns (candidates: seq<Key>)
      requires request.limit >= 0
      ensures candidates == Chosen(items, tenantID, request)
    {
      hide Before, Sorted, OldestFirst;
      candidates := CollectClaimable(tenantID, request.now);
      candidates := SortOldestFirst(candidates);
      if |candidates| > request.limit { candidates := candidates[..request.limit]; }
    }

    method HoldEach(candidates: seq<Key>, worker: string, until: nat) returns (deliveries: seq<Delivery>)
      requires forall k :: k in candidates ==> k.id in items
      modifies this
      ensures items == HoldAll(old(items), candidates, worker, until)
      ensures |deliveries| == |candidates|
      ensures forall i :: 0 <= i < |candidates| ==>
                && candidates[i].id in items && deliveries[i] == items[candidates[i].id]
                && deliveries[i] == Held(old(items)[candidates[i].id], worker, until)
    {
      hide HoldAll, Ids, Held;
      deliveries := [];
      HoldNone(items, worker, until);
      for i := 0 to |candidates|
        invariant items == HoldAll(old(items), candidates[..i], worker, until)
        invariant |deliveries| == i
        invariant forall j :: 0 <= j < i ==> deliveries[j] == Held(old(items)[candidates[j].id], worker, until)
      {
        HoldOneMore(old(items), candidates[..i], candidates[i], worker, until);
        var id := candidates[i].id;
        var delivery := Held(items[id], worker, until);
        items := items[id := delivery];
        deliveries := deliveries + [delivery];
        assert candidates[..i + 1] == candidates[..i] + [candidates[i]];
      }
      assert candidates[..|candidates|] == candidates;
      HoldReaches(old(items), candidates, worker, until);
    }

    /** Visits the map in any order. */
    method CollectClaimable(tenantID: string, now: nat) returns (candidates: seq<Key>)
      ensures Distinct(candidates) && Elements(candidates) == ClaimableKeys(items, tenantID, now)
    {
      candidates := [];
      var rest := items.Keys;
      while rest != {}
        invariant rest <= items.Keys
        invariant Distinct(candidates)
        invariant forall k :: k in candidates <==>
                    k.id in items && k.id !in rest && items[k.id].Claimable(tenantID, now) && k.time == items[k.id].createdAt
      {
        var id :| id in rest;
        rest := rest - {id};
        var delivery := items[id];
        if !(delivery.event.tenantID != tenantID || delivery.deliveredAt != 0 || delivery.deadLetteredAt != 0
             || (delivery.nextAttemptAt != 0 && delivery.nextAttemptAt > now)
             || (delivery.leaseUntil != 0 && delivery.leaseUntil > now)) {
          candidates := candidates + [Key(delivery.createdAt, id)];
        }
      }
    }

    /** The oldest deliveries of the tenant that are neither delivered nor dead, leased or not. */
    method Pending(caller: Principal, limit: int) returns (r: Result<seq<Delivery>>)
      requires Valid()
      ensures !caller.Authenticated() ==> r == Err(PermissionError)
      ensures caller.Authenticated() && !(1 <= PendingLimit(limit) <= 1000) ==> r == Err(ConfigError)
      ensures caller.Authenticated() && 1 <= PendingLimit(limit) <= 1000 ==>
                var chosen := Oldest(PendingKeys(items, caller.tenantID), PendingLimit(limit));
                && r.Ok? && |r.value| == |chosen|
                && forall i :: 0 <= i < |chosen| ==> chosen[i].id in items && r.value[i] == items[chosen[i].id]
    {
      if !caller.Authenticated() { return Err(PermissionError); }
      var most := if limit == 0 then 100 else limit;
      if most < 1 || most > 1000 { return Err(ConfigError); }
      hide Before, Sorted, OldestFirst, ItemsOk;
      var candidates := CollectPending(caller.tenantID);
      PendingAreKnown(items, caller.tenantID, most);
      candidates := SortOldestFirst(candidates);
      if |candidates| > most { candidates := candidates[..most]; }
      assert candidates == Oldest(PendingKeys(items, caller.tenantID), most);
      hide Oldest, PendingKeys;
      var output: seq<Delivery> := [];
      for i := 0 to |candidates|
        invariant |output| == i
        invariant forall j :: 0 <= j < i ==> candidates[j].id in items && output[j] == items[candidates[j].id]
      {
        output := output + [items[candidates[i].id]];
      }
      return Ok(output);
    }

    /** Visits the map in any order. */
    method CollectPending(tenantID: string) returns (candidates: seq<Key>)
      ensures Distinct(candidates) && Elements(candidates) == PendingKeys(items, tenantID)
    {
      candidates := [];
      var rest := items.Keys;
      while rest != {}
        invariant rest <= items.Keys
        invariant Distinct(candidates)
        invariant forall k :: k in candidates <==>
                    k.id in items && k.id !in rest && items[k.id].event.tenantID == tenantID && items[k.id].Pending()
                    && k.time == items[k.id].createdAt
      {
        var id :| id in rest;
        rest := rest - {id};
        var delivery := items[id];
        if delivery.event.tenantID == tenantID && delivery.deliveredAt == 0 && delivery.deadLetteredAt == 0 {
          candidates := candidates + [Key(delivery.createdAt, id)];
        }
      }
    }

    method Acknowledge(caller: Principal, id: string, worker: string, at: nat) returns (r: Result<()>)
      requires Valid()
      modifies this
      ensures Valid()
      ensures (items, r) == AcknowledgeStep(old(items), caller, id, worker, at)
    {
      if !caller.Authenticated() { return Err(PermissionError); }
      if Blank(worker) || at == 0 { return Err(ConfigError); }
      if id !in items { return Err(NotFoundError); }
      var delivery := items[id];
      if delivery.event.tenantID != caller.tenantID { return Err(PermissionError); }
      if delivery.leaseOwner != worker { return Err(ConflictError); }
      delivery := delivery.(deliveredAt := at);
      delivery := delivery.(leaseOwner := "", leaseUntil := 0);
      delivery := delivery.(lastError := "");
      items := items[id := delivery];
      return Ok(());
    }

    method Fail(caller: Principal, id: string, failure: DeliveryFailure) returns (r: Result<()>)
      requires Valid()
      modifies this
      ensures Valid()
      ensures (items, r) == FailStep(old(items), caller, id, failure)
    {
      if !ValidFailure(failure) { return Err(ConfigError); }
      if !caller.Authenticated() { return Err(PermissionError); }
      if id !in items { return Err(NotFoundError); }
      var delivery := items[id];
      if delivery.event.tenantID != caller.tenantID { return Err(PermissionError); }
      if delivery.leaseOwner != failure.workerID { return Err(ConflictError); }
      delivery := delivery.(attempts := delivery.attempts + 1);
      delivery := delivery.(lastAttemptAt := failure.at, lastError := BoundedError(failure.error));
      delivery := delivery.(leaseOwner := "", leaseUntil := 0, nextAttemptAt := failure.nextAttemptAt);
      if failure.deadLetter {
        delivery := delivery.(deadLetteredAt := failure.at, nextAttemptAt := 0);
      }
      items := items[id := delivery];
      return Ok(());
    }

    method Requeue(caller: Principal, id: string, at: nat) returns (r: Result<()>)
      requires Valid()
      modifies this
      ensures Valid()
      ensures (items, r) == RequeueStep(old(items), caller, id, at)
    {
      if !caller.Authenticated() { return Err(PermissionError); }
      if at == 0 { return Err(ConfigError); }
      if id !in items { return Err(NotFoundError); }
      var delivery := items[id];
      if delivery.event.tenantID != caller.tenantID { return Err(PermissionError); }
      if delivery.deadLetteredAt == 0 { return Err(ConflictError); }
      delivery := delivery.(attempts := 0, deadLetteredAt := 0, nextAttemptAt := at);
      delivery := delivery.(leaseOwner := "", leaseUntil := 0);
      items := items[id := delivery];
      return Ok(());
    }
  }
}
