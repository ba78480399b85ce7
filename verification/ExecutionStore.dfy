/**
 The in-memory execution store. Each locked method is one atomic step that reads its
 own clock; the functions say what a step does to the store and its history, and the
 class does it by updating its tables.
 */
module ExecutionStore {
  import opened Results
  import opened Text
  import opened Ordering
  import opened Checkpoint
  import opened LeaseHistory

  const SECOND := 1_000_000_000

  datatype ReadyRequest = ReadyRequest(statuses: seq<ExecutionStatus>, owner: string, duration: int, limit: int)

  predicate ValidLeaseRequest(owner: string, duration: int) {
    ValidWorkerName(owner) && SECOND <= duration <= 24 * 3600 * SECOND
  }

  predicate ValidReadyRequest(r: ReadyRequest) {
    && ValidLeaseRequest(r.owner, r.duration)
    && 1 <= r.limit <= 1000
    && r.statuses != []
    && forall s :: s in r.statuses ==> s.Running? || s.AwaitingApproval?
  }

  /** Storing needs a tenant in the caller's identity, and that tenant only. */
  predicate MayStore(caller: Principal, e: Execution) {
    caller.Valid() && caller.tenantID != "" && e.principal.tenantID == caller.tenantID
  }

  /** No lease record: anyone may write. A record: only its claim, and only before its limit. */
  predicate LeaseAllows(w: World, id: string, claim: Option<ExecutionClaim>, now: nat) {
    var lease := w.LeaseOf(id);
    lease.owner == "" ||
    (now < lease.until && claim.Some? && claim.value.execution.id == id
     && claim.value.owner == lease.owner && claim.value.token == lease.token)
  }

  function Stored(e: Execution, stamp: nat): Execution {
    e.(revision := e.revision + 1, updatedAt := stamp)
  }

  predicate UpdateAccepted(w: World, caller: Principal, e: Execution, claim: Option<ExecutionClaim>, now: nat, stamp: nat) {
    && MayStore(caller, e) && e.revision >= 1 && e.id in w.items
    && LeaseAllows(w, e.id, claim, now)
    && ValidUpdate(w.items[e.id], e)
    && ValidCheckpoint(Stored(e, stamp))
  }

  /** Which error a refused update gets: that of the first check it fails. */
  ghost function UpdateRefusal(w: World, caller: Principal, e: Execution, claim: Option<ExecutionClaim>, now: nat): ErrorKind {
    if !MayStore(caller, e) then PermissionError
    else if e.revision < 1 then ConfigError
    else if e.id !in w.items then NotFoundError
    else if !LeaseAllows(w, e.id, claim, now) then ConflictError
    else if w.items[e.id].principal.tenantID != e.principal.tenantID then PermissionError
    else if w.items[e.id].workflowID != e.workflowID || w.items[e.id].workflowVersion != e.workflowVersion then ConfigError
    else if w.items[e.id].revision != e.revision then ConflictError
    else if ChangesFixedPart(w.items[e.id], e) then ConfigError
    else if !ValidUpdate(w.items[e.id], e) then ConflictError
    else CheckpointError
  }

  // ---- The steps ----

  function CreateStep(w: World, caller: Principal, e: Execution, now: nat): (World, Result<Execution>) {
    var t := Tick(w, now);
    var stored := Stored(e, now);
    if !MayStore(caller, e) then (t, Err(PermissionError))
    else if e.revision != 0 then (t, Err(ConfigError))
    else if !ValidCheckpoint(stored) then (t, Err(CheckpointError))
    else if e.id in w.items then (t, Err(ConflictError))
    else (Append(t, stored, None, now), Ok(stored))
  }

  function UpdateStep(w: World, caller: Principal, e: Execution, claim: Option<ExecutionClaim>, now: nat, stamp: nat): World {
    var t := Tick(w, now);
    if UpdateAccepted(w, caller, e, claim, now, stamp) then Append(t, Stored(e, stamp), claim, now) else t
  }

  function ClaimStep(w: World, caller: Principal, id: string, owner: string, duration: int, now: nat)
    : (World, Result<Option<ExecutionClaim>>)
  {
    var t := Tick(w, now);
    var lease := w.LeaseOf(id);
    if !ValidLeaseRequest(owner, duration) then (t, Err(ConfigError))
    else if !caller.Authenticated() then (t, Err(PermissionError))
    else if id !in w.items then (t, Ok(None))
    else if w.items[id].principal.tenantID != caller.tenantID then (t, Err(PermissionError))
    else if Terminal(w.items[id].status) then (t, Err(ConflictError))
    else if w.Leased(id, now) && lease.owner != owner then (t, Ok(None))
    else
      var until := now + duration;
      if w.Leased(id, now) then
        (Extend(t, id, until), Ok(Some(ExecutionClaim(w.items[id], owner, lease.token, until))))
      else
        (Grant(t, id, owner, until, now), Ok(Some(ExecutionClaim(w.items[id], owner, w.nextFence + 1, until))))
  }

  /** The executions a ready claim may take: right tenant, asked-for status, not leased. */
  predicate Ready(w: World, caller: Principal, statuses: seq<ExecutionStatus>, now: nat, id: string) {
    && id in w.items && w.items[id].principal.tenantID == caller.tenantID
    && w.items[id].status in statuses && !w.Leased(id, now)
  }

  function ReadyKeys(w: World, caller: Principal, statuses: seq<ExecutionStatus>, now: nat): set<Key> {
    set id | id in w.items && Ready(w, caller, statuses, now, id) :: Key(w.items[id].updatedAt, id)
  }

  function GrantAll(w: World, chosen: seq<Key>, owner: string, until: nat, now: nat): World {
    if chosen == [] then w
    else
      var front := chosen[..|chosen| - 1];
      Grant(GrantAll(w, front, owner, until, now), chosen[|chosen| - 1].id, owner, until, now)
  }

  ghost function ClaimReadyStep(w: World, caller: Principal, r: ReadyRequest, now: nat): World {
    var t := Tick(w, now);
    if !ValidReadyRequest(r) || !caller.Authenticated() then t
    else GrantAll(t, Oldest(ReadyKeys(w, caller, r.statuses, now), r.limit), r.owner, now + r.duration, now)
  }

  function RenewStep(w: World, caller: Principal, claim: ExecutionClaim, duration: int, now: nat)
    : (World, Result<ExecutionClaim>)
  {
    var t := Tick(w, now);
    var id := claim.execution.id;
    var lease := w.LeaseOf(id);
    if !ValidLeaseRequest(claim.owner, duration) then (t, Err(ConfigError))
    else if !caller.Authenticated() then (t, Err(PermissionError))
    else if id !in w.items || w.items[id].principal.tenantID != caller.tenantID
            || lease.owner != claim.owner || lease.token != claim.token || !(now < lease.until) then (t, Err(ConflictError))
    else (Extend(t, id, now + duration), Ok(claim.(execution := w.items[id], leaseUntil := now + duration)))
  }

  function ReleaseStep(w: World, caller: Principal, claim: ExecutionClaim, now: nat): (World, Result<()>) {
    var t := Tick(w, now);
    var id := claim.execution.id;
    var lease := w.LeaseOf(id);
    if !caller.Authenticated() then (t, Err(PermissionError))
    else if id !in w.items then (t, Ok(()))
    else if w.items[id].principal.tenantID != caller.tenantID then (t, Err(PermissionError))
    else if lease.owner != claim.owner || lease.token != claim.token || !(now < lease.until) then (t, Err(ConflictError))
    else (Finish(t, id, now), Ok(()))
  }

  lemma ValidNamesAreNotEmpty(name: string)
    requires ValidWorkerName(name)
    ensures name != ""
  {}

  // ---- Ready claims ----

  ghost predicate DistinctIds(chosen: seq<Key>) {
    forall i, j :: 0 <= i < j < |chosen| ==> chosen[i].id != chosen[j].id
  }

  ghost function Ids(chosen: seq<Key>): set<string> {
    set k | k in chosen :: k.id
  }

  lemma IdsOfFront(chosen: seq<Key>)
    requires chosen != [] && DistinctIds(chosen)
    ensures var front, last := chosen[..|chosen| - 1], chosen[|chosen| - 1];
            DistinctIds(front) && Ids(chosen) == Ids(front) + {last.id} && last.id !in Ids(front)
  {
    assert chosen == chosen[..|chosen| - 1] + [chosen[|chosen| - 1]];
  }

  lemma IdIsKnown(chosen: seq<Key>, i: nat)
    requires i < |chosen|
    ensures chosen[i].id in Ids(chosen)
  {
    assert chosen[i] in chosen;
  }

  lemma GrantFrame(w: World, id: string, owner: string, until: nat, now: nat)
    ensures var w' := Grant(w, id, owner, until, now);
            && w'.items == w.items && w'.writes == w.writes && w'.clock == w.clock
            && w'.nextFence == w.nextFence + 1
            && w'.leases.Keys == w.leases.Keys + {id}
            && w'.LeaseOf(id) == Lease(owner, w.nextFence + 1, until)
            && (forall other :: other != id ==> w'.LeaseOf(other) == w.LeaseOf(other))
  {}

  lemma {:induction false} GrantAllFrame(w: World, chosen: seq<Key>, owner: string, until: nat, now: nat)
    requires DistinctIds(chosen)
    ensures var w' := GrantAll(w, chosen, owner, until, now);
            && w'.items == w.items && w'.writes == w.writes && w'.clock == w.clock
            && w'.nextFence == w.nextFence + |chosen|
            && w'.leases.Keys == w.leases.Keys + Ids(chosen)
            && (forall i :: 0 <= i < |chosen| ==> w'.LeaseOf(chosen[i].id) == Lease(owner, w.nextFence + i + 1, until))
            && (forall id :: id !in Ids(chosen) ==> w'.LeaseOf(id) == w.LeaseOf(id))
  {
    if chosen != [] {
      var n := |chosen| - 1;
      var front, last := chosen[..n], chosen[n];
      IdsOfFront(chosen);
      GrantAllFrame(w, front, owner, until, now);
      var w0, w' := GrantAll(w, front, owner, until, now), GrantAll(w, chosen, owner, until, now);
      GrantFrame(w0, last.id, owner, until, now);
      forall i | 0 <= i < n
        ensures w'.LeaseOf(chosen[i].id) == Lease(owner, w.nextFence + i + 1, until)
      {
        assert chosen[i] == front[i] && front[i] in front;
        IdIsKnown(front, i);
      }
    }
  }

  lemma {:induction false} GrantAllTick(w: World, chosen: seq<Key>, owner: string, until: nat, now: nat)
    ensures var a, b := GrantAll(w, chosen, owner, until, now), GrantAll(Tick(w, now), chosen, owner, until, now);
            a.items == b.items && a.leases == b.leases && a.nextFence == b.nextFence
    ensures GrantAll(w, chosen, owner, until, now).items == w.items
  {
    if chosen != [] { GrantAllTick(w, chosen[..|chosen| - 1], owner, until, now); }
  }

  lemma ChosenIds(w: World, caller: Principal, statuses: seq<ExecutionStatus>, now: nat, limit: nat)
    ensures var chosen := Oldest(ReadyKeys(w, caller, statuses, now), limit);
            && (forall i :: 0 <= i < |chosen| ==> Ready(w, caller, statuses, now, chosen[i].id))
            && (forall k :: k in chosen ==> k.id in w.items)
            && (forall i :: 0 <= i < |chosen| ==> chosen[i].time == w.items[chosen[i].id].updatedAt)
            && DistinctIds(chosen)
  {
    var keys := ReadyKeys(w, caller, statuses, now);
    var chosen := Oldest(keys, limit);
    OldestIsFair(keys, limit);
    SortedIsDistinct(chosen);
    forall i | 0 <= i < |chosen|
      ensures Ready(w, caller, statuses, now, chosen[i].id) && chosen[i].time == w.items[chosen[i].id].updatedAt
    {
      assert chosen[i] in Elements(chosen);
    }
    forall k | k in chosen
      ensures k.id in w.items
    {
      assert k in Elements(chosen);
    }
  }

  lemma ReadyLeasesHavePassed(w: World, caller: Principal, r: ReadyRequest, now: nat)
    requires Inv(w) && ValidReadyRequest(r)
    ensures var chosen := Oldest(ReadyKeys(w, caller, r.statuses, now), r.limit);
            DistinctIds(chosen) && forall i :: 0 <= i < |chosen| ==> w.LeaseOf(chosen[i].id).until <= now
  {
    var chosen := Oldest(ReadyKeys(w, caller, r.statuses, now), r.limit);
    ChosenIds(w, caller, r.statuses, now, r.limit);
    hide Inv, Oldest, ReadyKeys, ValidReadyRequest, Blank;
    forall i | 0 <= i < |chosen|
      ensures w.LeaseOf(chosen[i].id).until <= now
    {
      if chosen[i].id in w.leases { LeaseRecord(w, chosen[i].id); }
    }
  }

  /**
   A ready claim takes the `limit` oldest ready executions, passes over no older one,
   gives them ascending new tokens in that order and changes nothing else.
   */
  lemma ClaimReadyTakesTheOldest(w: World, caller: Principal, r: ReadyRequest, now: nat)
    requires ValidReadyRequest(r) && caller.Authenticated()
    ensures var w' := ClaimReadyStep(w, caller, r, now);
            var keys := ReadyKeys(w, caller, r.statuses, now);
            var chosen := Oldest(keys, r.limit);
            && |chosen| == (if |keys| > r.limit then r.limit else |keys|)
            && (forall taken, left :: taken in chosen && left in keys && left !in chosen ==> Before(taken, left))
            && Sorted(chosen)
            && (forall i :: 0 <= i < |chosen| ==>
                  Ready(w, caller, r.statuses, now, chosen[i].id)
                  && w'.LeaseOf(chosen[i].id) == Lease(r.owner, w.nextFence + i + 1, now + r.duration))
            && w'.items == w.items && w'.writes == w.writes && w'.nextFence == w.nextFence + |chosen|
            && (forall id :: id !in Ids(chosen) ==> w'.LeaseOf(id) == w.LeaseOf(id))
  {
    hide ValidWorkerName, Blank, Oldest, Before, Ready, ReadyKeys, GrantAll, Sorted;
    var keys := ReadyKeys(w, caller, r.statuses, now);
    var chosen := Oldest(keys, r.limit);
    OldestIsFair(keys, r.limit);
    ChosenIds(w, caller, r.statuses, now, r.limit);
    GrantAllFrame(Tick(w, now), chosen, r.owner, now + r.duration, now);
  }

  // ---- The class ----

  class MemoryExecutionStore {
    var items: map<string, Execution>
    var leases: map<string, Lease>
    var nextFence: int
    ghost var clock: nat
    ghost var tenures: map<int, Tenure>
    ghost var writes: map<string, seq<Write>>

    ghost function Contents(): World
      reads this
    {
      World(items, leases, nextFence, clock, tenures, writes)
    }

    ghost predicate Valid()
      reads this
    {
      Inv(Contents())
    }

    constructor ()
      ensures Valid() && Contents() == EMPTY
    {
      items, leases, nextFence := map[], map[], 0;
      clock, tenures, writes := 0, map[], map[];
      new;
      EmptyOk();
    }

    ghost method Record(w: World)
      requires items == w.items && leases == w.leases && nextFence == w.nextFence
      modifies this`clock, this`tenures, this`writes
      ensures Contents() == w
    {
      clock, tenures, writes := w.clock, w.tenures, w.writes;
    }

    method Create(caller: Principal, execution: Execution, now: nat) returns (r: Result<Execution>)
      requires Valid()
      modifies this
      ensures Valid()
      ensures (Contents(), r) == CreateStep(old(Contents()), caller, execution, now)
    {
      hide Inv, TimeInv, ValidCheckpoint, Blank;
      ghost var w := Contents();
      StepsKeepCreate(w, caller, execution, now);
      r := Err(PermissionError);
      if MayStore(caller, execution) {
        if execution.revision != 0 {
          r := Err(ConfigError);
        } else {
          var stored := execution.(revision := 1, updatedAt := now);
          var ok := ValidateCheckpoint(stored);
          if !ok {
            r := Err(CheckpointError);
          } else if stored.id in items {
            r := Err(ConflictError);
          } else {
            items := items[stored.id := stored];
            r := Ok(stored);
          }
        }
      }
      Record(CreateStep(w, caller, execution, now).0);
    }

    method Update(caller: Principal, execution: Execution, claim: Option<ExecutionClaim>, now: nat, stamp: nat)
      returns (r: Result<Execution>)
      requires Valid()
      modifies this
      ensures Valid()
      ensures Contents() == UpdateStep(old(Contents()), caller, execution, claim, now, stamp)
      ensures r.Ok? <==> UpdateAccepted(old(Contents()), caller, execution, claim, now, stamp)
      ensures r.Err? ==> r.error == UpdateRefusal(old(Contents()), caller, execution, claim, now)
      ensures r.Ok? ==> r.value == Stored(execution, stamp)
      ensures !MayStore(caller, execution) ==> r == Err(PermissionError)
      ensures MayStore(caller, execution) && execution.revision >= 1 && execution.id !in old(items) ==> r == Err(NotFoundError)
      ensures (MayStore(caller, execution) && execution.revision >= 1 && execution.id in old(items)
               && !LeaseAllows(old(Contents()), execution.id, claim, now)) ==> r == Err(ConflictError)
    {
      hide Inv, TimeInv, UpdateAccepted, UpdateRefusal, MayStore, LeaseAllows, ValidCheckpoint;
      ghost var w := Contents();
      StepsKeepUpdate(w, caller, execution, claim, now, stamp);
      r := TryUpdate(caller, execution, claim, now, stamp);
      if r.Ok? {
        items := items[execution.id := r.value];
      }
      Record(UpdateStep(w, caller, execution, claim, now, stamp));
    }

    /** The checks of `Update`, in the order the store makes them. */
    method TryUpdate(caller: Principal, execution: Execution, claim: Option<ExecutionClaim>, now: nat, stamp: nat)
      returns (r: Result<Execution>)
      ensures r.Ok? <==> UpdateAccepted(Contents(), caller, execution, claim, now, stamp)
      ensures r.Err? ==> r.error == UpdateRefusal(Contents(), caller, execution, claim, now)
      ensures r.Ok? ==> r.value == Stored(execution, stamp)
      ensures !MayStore(caller, execution) ==> r == Err(PermissionError)
      ensures MayStore(caller, execution) && execution.revision >= 1 && execution.id !in items ==> r == Err(NotFoundError)
      ensures (MayStore(caller, execution) && execution.revision >= 1 && execution.id in items
               && !LeaseAllows(Contents(), execution.id, claim, now)) ==> r == Err(ConflictError)
    {
      if !MayStore(caller, execution) { return Err(PermissionError); }
      if execution.revision < 1 { return Err(ConfigError); }
      if execution.id !in items { return Err(NotFoundError); }
      var current := items[execution.id];
      var lease := if execution.id in leases then leases[execution.id] else NO_LEASE;
      var allowed := RequireExecutionClaim(claim, execution.id, lease, now);
      if !allowed { return Err(ConflictError); }
      if current.principal.tenantID != execution.principal.tenantID { return Err(PermissionError); }
      if current.workflowID != execution.workflowID || current.workflowVersion != execution.workflowVersion {
        return Err(ConfigError);
      }
      if current.revision != execution.revision { return Err(ConflictError); }
      var rejection := ValidateExecutionUpdate(current, execution);
      if rejection.Some? { return Err(rejection.value); }
      var stored := execution.(revision := execution.revision + 1, updatedAt := stamp);
      var ok := ValidateCheckpoint(stored);
      if !ok { return Err(CheckpointError); }
      return Ok(stored);
    }

    method ClaimExecution(caller: Principal, id: string, owner: string, duration: int, now: nat)
      returns (r: Result<Option<ExecutionClaim>>)
      requires Valid()
      modifies this
      ensures Valid()
      ensures (Contents(), r) == ClaimStep(old(Contents()), caller, id, owner, duration, now)
    {
      hide ValidWorkerName, Inv, TimeInv, Terminal, Blank;
      ghost var w := Contents();
      StepsKeepClaim(w, caller, id, owner, duration, now);
      if ValidWorkerName(owner) { ValidNamesAreNotEmpty(owner); }
      if !ValidLeaseRequest(owner, duration) {
        r := Err(ConfigError);
      } else if !caller.Authenticated() {
        r := Err(PermissionError);
      } else if id !in items {
        r := Ok(None);
      } else if items[id].principal.tenantID != caller.tenantID {
        r := Err(PermissionError);
      } else if Terminal(items[id].status) {
        r := Err(ConflictError);
      } else {
        var lease := if id in leases then leases[id] else NO_LEASE;
        if lease.owner != "" && now < lease.until && lease.owner != owner {
          r := Ok(None);
        } else {
          if lease.owner != owner || !(now < lease.until) {
            nextFence := nextFence + 1;
            lease := lease.(token := nextFence);
          }
          lease := lease.(owner := owner, until := now + duration);
          leases := leases[id := lease];
          r := Ok(Some(ExecutionClaim(items[id], owner, lease.token, lease.until)));
        }
      }
      Record(ClaimStep(w, caller, id, owner, duration, now).0);
    }

    method ClaimReadyExecutions(caller: Principal, request: ReadyRequest, now: nat)
      returns (r: Result<seq<ExecutionClaim>>)
      requires Valid()
      modifies this
      ensures Valid()
      ensures Contents() == ClaimReadyStep(old(Contents()), caller, request, now)
      ensures !ValidReadyRequest(request) ==> r == Err(ConfigError)
      ensures ValidReadyRequest(request) && !caller.Authenticated() ==> r == Err(PermissionError)
      ensures ValidReadyRequest(request) && caller.Authenticated() ==>
                var chosen := Oldest(ReadyKeys(old(Contents()), caller, request.statuses, now), request.limit);
                && r.Ok? && |r.value| == |chosen|
                && forall i :: 0 <= i < |chosen| ==>
                     && chosen[i].id in old(items)
                     && r.value[i] == ExecutionClaim(old(items)[chosen[i].id], request.owner,
                                                     old(nextFence) + i + 1, now + request.duration)
    {
      hide ValidWorkerName, Inv, TimeInv, Blank, OldestFirst, Before, Sorted, GrantAll, Ready, ReadyKeys;
      ghost var w := Contents();
      StepsKeepReady(w, caller, request, now);
      if !ValidReadyRequest(request) {
        r := Err(ConfigError);
      } else if !caller.Authenticated() {
        r := Err(PermissionError);
      } else {
        var ready := CollectReady(caller, request.statuses, now);
        ready := SortOldestFirst(ready);
        if |ready| > request.limit { ready := ready[..request.limit]; }
        ChosenIds(w, caller, request.statuses, now, request.limit);
        var claims := GrantEach(ready, request.owner, now + request.duration, now);
        GrantAllTick(w, ready, request.owner, now + request.duration, now);
        r := Ok(claims);
      }
      Record(ClaimReadyStep(w, caller, request, now));
    }

    method GrantEach(ready: seq<Key>, owner: string, until: nat, ghost now: nat) returns (claims: seq<ExecutionClaim>)
      requires forall k :: k in ready ==> k.id in items
      modifies this`leases, this`nextFence
      ensures leases == GrantAll(old(Contents()), ready, owner, until, now).leases
      ensures nextFence == GrantAll(old(Contents()), ready, owner, until, now).nextFence
      ensures |claims| == |ready|
      ensures forall i :: 0 <= i < |ready| ==>
                claims[i] == ExecutionClaim(items[ready[i].id], owner, old(nextFence) + i + 1, until)
    {
      ghost var w := Contents();
      claims := [];
      for i := 0 to |ready|
        invariant |claims| == i
        invariant leases == GrantAll(w, ready[..i], owner, until, now).leases
        invariant nextFence == GrantAll(w, ready[..i], owner, until, now).nextFence == w.nextFence + i
        invariant forall j :: 0 <= j < i ==>
                    claims[j] == ExecutionClaim(items[ready[j].id], owner, w.nextFence + j + 1, until)
      {
        nextFence := nextFence + 1;
        leases := leases[ready[i].id := Lease(owner, nextFence, until)];
        claims := claims + [ExecutionClaim(items[ready[i].id], owner, nextFence, until)];
        assert ready[..i + 1][..i] == ready[..i];
      }
      assert ready[..|ready|] == ready;
    }

    /** Visits the map in any order. */
    method CollectReady(caller: Principal, statuses: seq<ExecutionStatus>, now: nat) returns (ready: seq<Key>)
      ensures Distinct(ready) && Elements(ready) == ReadyKeys(Contents(), caller, statuses, now)
    {
      ghost var w := Contents();
      ready := [];
      var rest := items.Keys;
      while rest != {}
        invariant rest <= items.Keys
        invariant Distinct(ready)
        invariant forall k :: k in ready <==>
                    k.id in items && k.id !in rest && Ready(w, caller, statuses, now, k.id) && k.time == items[k.id].updatedAt
      {
        var id :| id in rest;
        rest := rest - {id};
        var execution := items[id];
        var lease := if id in leases then leases[id] else NO_LEASE;
        if execution.principal.tenantID == caller.tenantID && execution.status in statuses
           && !(lease.owner != "" && now < lease.until) {
          ready := ready + [Key(execution.updatedAt, id)];
        }
      }
    }

    method RenewExecution(caller: Principal, claim: ExecutionClaim, duration: int, now: nat)
      returns (r: Result<ExecutionClaim>)
      requires Valid()
      modifies this
      ensures Valid()
      ensures (Contents(), r) == RenewStep(old(Contents()), caller, claim, duration, now)
    {
      hide Inv, TimeInv, ValidWorkerName, Blank;
      ghost var w := Contents();
      StepsKeepRenew(w, caller, claim, duration, now);
      var id := claim.execution.id;
      var lease := if id in leases then leases[id] else NO_LEASE;
      if !ValidLeaseRequest(claim.owner, duration) {
        r := Err(ConfigError);
      } else if !caller.Authenticated() {
        r := Err(PermissionError);
      } else if id !in items || items[id].principal.tenantID != caller.tenantID
                || lease.owner != claim.owner || lease.token != claim.token || !(now < lease.until) {
        r := Err(ConflictError);
      } else {
        lease := lease.(until := now + duration);
        leases := leases[id := lease];
        r := Ok(claim.(execution := items[id], leaseUntil := lease.until));
      }
      Record(RenewStep(w, caller, claim, duration, now).0);
    }

    method ReleaseExecution(caller: Principal, claim: ExecutionClaim, now: nat) returns (r: Result<()>)
      requires Valid()
      modifies this
      ensures Valid()
      ensures (Contents(), r) == ReleaseStep(old(Contents()), caller, claim, now)
    {
      hide Inv, TimeInv, Blank;
      ghost var w := Contents();
      StepsKeepRelease(w, caller, claim, now);
      var id := claim.execution.id;
      if !caller.Authenticated() {
        r := Err(PermissionError);
      } else if id !in items {
        r := Ok(());
      } else if items[id].principal.tenantID != caller.tenantID {
        r := Err(PermissionError);
      } else {
        var lease := if id in leases then leases[id] else NO_LEASE;
        if lease.owner != claim.owner || lease.token != claim.token || !(now < lease.until) {
          r := Err(ConflictError);
        } else {
          leases := leases - {id};
          r := Ok(());
        }
      }
      Record(ReleaseStep(w, caller, claim, now).0);
    }
  }

  method RequireExecutionClaim(claim: Option<ExecutionClaim>, id: string, lease: Lease, now: nat) returns (ok: bool)
    ensures ok <==> lease.owner == "" ||
                    (now < lease.until && claim.Some? && claim.value.execution.id == id
                     && claim.value.owner == lease.owner && claim.value.token == lease.token)
  {
    if lease.owner == "" { return true; }
    if !(now < lease.until) { return false; }
    if claim.None? { return false; }
    if claim.value.execution.id != id || claim.value.owner != lease.owner || claim.value.token != lease.token {
      return false;
    }
    return true;
  }

  // ---- Every step keeps the invariant; on time, the time invariant too ----

  lemma StepsKeepCreate(w: World, caller: Principal, e: Execution, now: nat)
    requires Inv(w)
    ensures Inv(CreateStep(w, caller, e, now).0)
    ensures TimeInv(w) ==> TimeInv(CreateStep(w, caller, e, now).0)
  {
    TickKeeps(w, now);
    if CreateStep(w, caller, e, now).1.Ok? {
      AppendKeeps(Tick(w, now), Stored(e, now), None, now);
    }
  }

  lemma StepsKeepUpdate(w: World, caller: Principal, e: Execution, claim: Option<ExecutionClaim>, now: nat, stamp: nat)
    requires Inv(w)
    ensures Inv(UpdateStep(w, caller, e, claim, now, stamp))
    ensures TimeInv(w) ==> TimeInv(UpdateStep(w, caller, e, claim, now, stamp))
  {
    var t := Tick(w, now);
    TickKeeps(w, now);
    if UpdateAccepted(w, caller, e, claim, now, stamp) {
      var stored := Stored(e, stamp);
      StoredFollows(w, e, stamp);
      if e.id in w.leases { LeaseRecord(w, e.id); }
      AppendKeeps(t, stored, claim, now);
    }
  }

  lemma StoredFollows(w: World, e: Execution, stamp: nat)
    requires e.id in w.items && ValidUpdate(w.items[e.id], e)
    ensures Follows(w.items[e.id], Stored(e, stamp))
  {
    var current := w.items[e.id];
    var again := Stored(e, stamp).(revision := current.revision);
    forall i | 0 <= i < |current.steps|
      ensures StepMayBecome(current.steps[i], again.steps[i])
    {
      assert StepMayBecome(current.steps[i], e.steps[i]);
    }
  }

  lemma StepsKeepClaim(w: World, caller: Principal, id: string, owner: string, duration: int, now: nat)
    requires Inv(w)
    ensures Inv(ClaimStep(w, caller, id, owner, duration, now).0)
    ensures TimeInv(w) && w.clock <= now ==> TimeInv(ClaimStep(w, caller, id, owner, duration, now).0)
  {
    hide ValidWorkerName, Inv, TimeInv;
    var t := Tick(w, now);
    TickKeeps(w, now);
    var (w', r) := ClaimStep(w, caller, id, owner, duration, now);
    if r.Ok? && r.value.Some? {
      ValidNamesAreNotEmpty(owner);
      if id in w.leases { LeaseRecord(w, id); }
      if w.Leased(id, now) {
        ExtendKeeps(t, id, now + duration);
        if TimeInv(w) && w.clock <= now { ExtendKeepsTime(t, id, now + duration); }
      } else {
        GrantKeeps(t, id, owner, now + duration, now);
        if TimeInv(w) && w.clock <= now { GrantKeepsTime(t, id, owner, now + duration, now); }
      }
    }
  }

  lemma {:induction false} GrantAllKeeps(w: World, chosen: seq<Key>, owner: string, until: nat, now: nat)
    requires Inv(w) && owner != ""
    requires DistinctIds(chosen)
    requires forall k :: k in chosen ==> k.id in w.items
    ensures Inv(GrantAll(w, chosen, owner, until, now))
    ensures TimeInv(w) && now == w.clock && now <= until
            && (forall i :: 0 <= i < |chosen| && chosen[i].id in w.leases ==> w.leases[chosen[i].id].until <= now)
            ==> TimeInv(GrantAll(w, chosen, owner, until, now))
  {
    hide Inv, TimeInv, Ids, DistinctIds;
    if chosen != [] {
      var n := |chosen| - 1;
      var front := chosen[..n];
      assert forall i :: 0 <= i < n ==> front[i] == chosen[i];
      IdsOfFront(chosen);
      GrantAllKeeps(w, front, owner, until, now);
      GrantAllFrame(w, front, owner, until, now);
      var before := GrantAll(w, front, owner, until, now);
      var id := chosen[n].id;
      assert before.LeaseOf(id) == w.LeaseOf(id);
      GrantKeeps(before, id, owner, until, now);
      if TimeInv(w) && now == w.clock && now <= until
         && (forall i :: 0 <= i < |chosen| && chosen[i].id in w.leases ==> w.leases[chosen[i].id].until <= now)
      {
        GrantKeepsTime(before, id, owner, until, now);
      }
    }
  }

  lemma StepsKeepReady(w: World, caller: Principal, r: ReadyRequest, now: nat)
    requires Inv(w)
    ensures Inv(ClaimReadyStep(w, caller, r, now))
    ensures TimeInv(w) && w.clock <= now ==> TimeInv(ClaimReadyStep(w, caller, r, now))
  {
    hide Inv, TimeInv, ValidWorkerName, Blank, Oldest, ReadyKeys, GrantAll;
    TickKeeps(w, now);
    if ValidReadyRequest(r) && caller.Authenticated() {
      var chosen := Oldest(ReadyKeys(w, caller, r.statuses, now), r.limit);
      ChosenIds(w, caller, r.statuses, now, r.limit);
      ValidNamesAreNotEmpty(r.owner);
      ReadyLeasesHavePassed(w, caller, r, now);
      GrantAllKeeps(Tick(w, now), chosen, r.owner, now + r.duration, now);
    }
  }

  lemma StepsKeepRenew(w: World, caller: Principal, claim: ExecutionClaim, duration: int, now: nat)
    requires Inv(w)
    ensures Inv(RenewStep(w, caller, claim, duration, now).0)
    ensures TimeInv(w) && w.clock <= now ==> TimeInv(RenewStep(w, caller, claim, duration, now).0)
  {
    hide ValidWorkerName, Inv, TimeInv;
    TickKeeps(w, now);
    if RenewStep(w, caller, claim, duration, now).1.Ok? {
      var t := Tick(w, now);
      ExtendKeeps(t, claim.execution.id, now + duration);
      if TimeInv(w) && w.clock <= now { ExtendKeepsTime(t, claim.execution.id, now + duration); }
    }
  }

  lemma StepsKeepRelease(w: World, caller: Principal, claim: ExecutionClaim, now: nat)
    requires Inv(w)
    ensures Inv(ReleaseStep(w, caller, claim, now).0)
    ensures TimeInv(w) && w.clock <= now ==> TimeInv(ReleaseStep(w, caller, claim, now).0)
  {
    TickKeeps(w, now);
    var id := claim.execution.id;
    if ReleaseStep(w, caller, claim, now).0 == Finish(Tick(w, now), id, now) && id in w.leases {
      FinishKeeps(Tick(w, now), id, now);
      if TimeInv(w) && w.clock <= now && now < w.leases[id].until { FinishKeepsTime(Tick(w, now), id, now); }
    }
  }
}
