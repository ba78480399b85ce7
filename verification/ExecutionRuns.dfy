/** Claims about every interleaving of store steps by any number of workers. */
module ExecutionRuns {
  import opened Results
  import opened Text
  import opened Ordering
  import opened Checkpoint
  import opened LeaseHistory
  import opened ExecutionStore

  datatype Op =
    | Create(caller: Principal, execution: Execution, now: nat)
    | Update(caller: Principal, execution: Execution, claim: Option<ExecutionClaim>, now: nat, stamp: nat)
    | Claim(caller: Principal, id: string, owner: string, duration: int, now: nat)
    | ClaimReady(caller: Principal, request: ReadyRequest, now: nat)
    | Renew(caller: Principal, held: ExecutionClaim, duration: int, now: nat)
    | Release(caller: Principal, held: ExecutionClaim, now: nat)

  ghost function Step(w: World, op: Op): World {
    match op
    case Create(caller, e, now) => CreateStep(w, caller, e, now).0
    case Update(caller, e, claim, now, stamp) => UpdateStep(w, caller, e, claim, now, stamp)
    case Claim(caller, id, owner, duration, now) => ClaimStep(w, caller, id, owner, duration, now).0
    case ClaimReady(caller, request, now) => ClaimReadyStep(w, caller, request, now)
    case Renew(caller, held, duration, now) => RenewStep(w, caller, held, duration, now).0
    case Release(caller, held, now) => ReleaseStep(w, caller, held, now).0
  }

  ghost function Run(w: World, ops: seq<Op>): World {
    if ops == [] then w else Step(Run(w, ops[..|ops| - 1]), ops[|ops| - 1])
  }

  /** Successive steps read clocks that do not go back. */
  ghost predicate OnTime(w: World, ops: seq<Op>) {
    ops != [] ==> OnTime(w, ops[..|ops| - 1]) && Run(w, ops[..|ops| - 1]).clock <= ops[|ops| - 1].now
  }

  lemma StepKeeps(w: World, op: Op)
    requires Inv(w)
    ensures Inv(Step(w, op))
    ensures TimeInv(w) && w.clock <= op.now ==> TimeInv(Step(w, op))
  {
    hide Inv, TimeInv;
    match op
    case Create(caller, e, now) => StepsKeepCreate(w, caller, e, now);
    case Update(caller, e, claim, now, stamp) => StepsKeepUpdate(w, caller, e, claim, now, stamp);
    case Claim(caller, id, owner, duration, now) => StepsKeepClaim(w, caller, id, owner, duration, now);
    case ClaimReady(caller, request, now) => StepsKeepReady(w, caller, request, now);
    case Renew(caller, held, duration, now) => StepsKeepRenew(w, caller, held, duration, now);
    case Release(caller, held, now) => StepsKeepRelease(w, caller, held, now);
  }

  /** Every store reached from the empty one satisfies the invariants. */
  lemma {:induction false} RunKeeps(w: World, ops: seq<Op>)
    requires Inv(w)
    ensures Inv(Run(w, ops))
    ensures TimeInv(w) && OnTime(w, ops) ==> TimeInv(Run(w, ops))
  {
    hide Inv, TimeInv, Step;
    if ops != [] {
      RunKeeps(w, ops[..|ops| - 1]);
      StepKeeps(Run(w, ops[..|ops| - 1]), ops[|ops| - 1]);
    }
  }

  // ---- Tokens ----

  /** The step hands out token `t`. */
  predicate NewToken(w: World, w': World, t: int) {
    t !in w.tenures && t in w'.tenures
  }

  ghost predicate GrantsFresh(w: World, w': World, now: nat) {
    && w.nextFence <= w'.nextFence
    && (forall t :: t in w.tenures ==> t in w'.tenures && w'.tenures[t].id == w.tenures[t].id)
    && (forall t :: NewToken(w, w', t) ==>
          && w.nextFence < t <= w'.nextFence && w'.tenures[t].from == now
          && w.LeaseOf(w'.tenures[t].id).until <= now)
  }

  /**
   A new tenure carries a token above every token ever issued, and begins only when the
   execution's lease record is gone or its limit has passed. No clock is assumed.
   */
  lemma NewTokensAreFresh(w: World, op: Op, t: int)
    requires Inv(w) && NewToken(w, Step(w, op), t)
    ensures forall u :: u in w.tenures ==> u < t
    ensures w.LeaseOf(Step(w, op).tenures[t].id).until <= op.now
  {
    StepGrantsFresh(w, op);
  }

  lemma StepGrantsFresh(w: World, op: Op)
    requires Inv(w)
    ensures GrantsFresh(w, Step(w, op), op.now)
  {
    hide *;
    match op
    case Create(_, _, _) => WriteGrantsNothing(w, op);
    case Update(_, _, _, _, _) => WriteGrantsNothing(w, op);
    case Claim(_, _, _, _, _) => ClaimGrantsFresh(w, op);
    case ClaimReady(_, _, _) => ReadyGrantsFresh(w, op);
    case Renew(_, _, _, _) => RenewGrantsNothing(w, op);
    case Release(_, _, _) => ReleaseGrantsNothing(w, op);
  }

  lemma WriteGrantsNothing(w: World, op: Op)
    requires op.Create? || op.Update?
    ensures GrantsFresh(w, Step(w, op), op.now)
  {
    hide ValidCheckpoint, ValidUpdate, Blank;
  }

  lemma RenewGrantsNothing(w: World, op: Op)
    requires Inv(w) && op.Renew?
    ensures GrantsFresh(w, Step(w, op), op.now)
  {
    hide ValidWorkerName, WritesOk, AllTokensKnown;
    if ValidLeaseRequest(op.held.owner, op.duration) {
      ValidNamesAreNotEmpty(op.held.owner);
      if op.held.execution.id in w.leases {
        ExtendGrantsNothing(Tick(w, op.now), op.held.execution.id, op.now + op.duration, op.now);
      }
    }
  }

  lemma ReleaseGrantsNothing(w: World, op: Op)
    requires op.Release?
    ensures GrantsFresh(w, Step(w, op), op.now)
  {
    hide Blank;
  }

  lemma ClaimGrantsFresh(w: World, op: Op)
    requires Inv(w) && op.Claim?
    ensures GrantsFresh(w, Step(w, op), op.now)
  {
    hide *;
    var t, until := Tick(w, op.now), op.now + op.duration;
    TickGrantsNothing(w, op.now);
    ClaimOutcomes(w, op);
    if Step(w, op) != t {
      if w.Leased(op.id, op.now) {
        ExtendGrantsNothing(t, op.id, until, op.now);
      } else {
        UnleasedHasPassed(w, op.id, op.now);
        NewGrantIsFresh(w, op.id, op.owner, until, op.now);
      }
    }
  }

  lemma ClaimOutcomes(w: World, op: Op)
    requires Inv(w) && op.Claim?
    ensures var t, until := Tick(w, op.now), op.now + op.duration;
            Inv(t) && (Step(w, op) != t ==>
              && until >= 0 && (w.Leased(op.id, op.now) ==> op.id in w.leases && op.id in t.leases)
              && Step(w, op) == if w.Leased(op.id, op.now) then Extend(t, op.id, until)
                                else Grant(t, op.id, op.owner, until, op.now))
  {
    hide Inv, Extend, Grant, Blank, Terminal, ValidWorkerName, Principal.Authenticated;
    TickKeeps(w, op.now);
  }

  lemma TickGrantsNothing(w: World, now: nat)
    ensures GrantsFresh(w, Tick(w, now), now)
    ensures forall w' :: GrantsFresh(Tick(w, now), w', now) ==> GrantsFresh(w, w', now)
  {}

  lemma UnleasedHasPassed(w: World, id: string, now: nat)
    requires Inv(w) && !w.Leased(id, now)
    ensures w.LeaseOf(id).until <= now
  {
    if id in w.leases { LeaseRecord(w, id); }
  }

  lemma NewGrantIsFresh(w: World, id: string, owner: string, until: nat, now: nat)
    requires Inv(w) && w.LeaseOf(id).until <= now
    ensures GrantsFresh(w, Grant(Tick(w, now), id, owner, until, now), now)
  {
    hide WritesOk, AllTokensKnown;
  }

  lemma ExtendGrantsNothing(w: World, id: string, until: nat, now: nat)
    requires Inv(w) && id in w.leases
    ensures GrantsFresh(w, Extend(w, id, until), now)
  {
    LeaseRecord(w, id);
  }

  lemma ReadyGrantsFresh(w: World, op: Op)
    requires Inv(w) && op.ClaimReady?
    ensures GrantsFresh(w, Step(w, op), op.now)
  {
    hide GrantAll, Oldest, ReadyKeys, ValidWorkerName, WritesOk, AllTokensKnown, Blank;
    var r := op.request;
    if ValidReadyRequest(r) && op.caller.Authenticated() {
      var chosen := Oldest(ReadyKeys(w, op.caller, r.statuses, op.now), r.limit);
      ReadyLeasesHavePassed(w, op.caller, r, op.now);
      GrantAllFresh(Tick(w, op.now), chosen, r.owner, op.now + r.duration, op.now);
    }
  }

  lemma {:induction false} GrantAllFresh(w: World, chosen: seq<Key>, owner: string, until: nat, now: nat)
    requires FenceOk(w.nextFence, w.tenures) && DistinctIds(chosen)
    requires forall i :: 0 <= i < |chosen| ==> w.LeaseOf(chosen[i].id).until <= now
    ensures var w' := GrantAll(w, chosen, owner, until, now);
            GrantsFresh(w, w', now) && FenceOk(w'.nextFence, w'.tenures)
  {
    if chosen != [] {
      var front, last := chosen[..|chosen| - 1], chosen[|chosen| - 1];
      GrantAllFresh(w, front, owner, until, now);
      GrantAllFrame(w, front, owner, until, now);
      assert last.id !in Ids(front);
    }
  }

  // ---- Tenures ----

  /**
   In every run on time, two tenures of one execution never overlap: the earlier one was
   released, or had reached its limit, when the later one began.
   */
  lemma TenuresNeverOverlap(ops: seq<Op>, t: int, u: int)
    requires OnTime(EMPTY, ops)
    requires var w := Run(EMPTY, ops); t in w.tenures && u in w.tenures && t < u && w.tenures[t].id == w.tenures[u].id
    ensures var w := Run(EMPTY, ops); w.tenures[t].End() <= w.tenures[u].from
  {
    EmptyOk();
    RunKeeps(EMPTY, ops);
  }

  // ---- Writes ----

  lemma {:induction false} ChainEvolves(id: string, writes: seq<Write>, i: nat, j: nat)
    requires Chain(id, writes) && i <= j < |writes|
    ensures Evolves(writes[i].execution, writes[j].execution)
    decreases j
  {
    hide ValidCheckpoint, Evolves, ValidUpdate, Guarded;
    if i == j {
      EvolvesReflexive(writes[i].execution);
    } else {
      ChainEvolves(id, writes, i, j - 1);
      var previous, stored := writes[j - 1].execution, writes[j].execution;
      assert Link(writes, id, j);
      UpdateEvolves(previous, stored.(revision := previous.revision), stored.updatedAt);
      assert stored == stored.(revision := previous.revision).(revision := previous.revision + 1, updatedAt := stored.updatedAt);
      EvolvesTransitive(writes[i].execution, previous, stored);
    }
  }

  /**
   In every run, the accepted writes to an execution are revisions 1, 2, 3, ... up to the
   stored one; any two of them agree on identity, input and deadline, NextStep rises by at
   most one per write, attempts never drop, a settled step keeps its status, nothing follows
   a terminal checkpoint, and all of them are valid checkpoints.
   */
  lemma WritesFormOneChain(ops: seq<Op>, id: string, i: nat, j: nat)
    requires var w := Run(EMPTY, ops); id in w.writes && i <= j < |w.writes[id]|
    ensures var w := Run(EMPTY, ops);
            && id in w.items && |w.writes[id]| == w.items[id].revision
            && w.writes[id][|w.writes[id]| - 1].execution == w.items[id]
            && w.writes[id][i].execution.revision == i + 1
            && ValidCheckpoint(w.writes[id][i].execution)
            && Evolves(w.writes[id][i].execution, w.writes[id][j].execution)
            && (Terminal(w.writes[id][i].execution.status) ==> i == |w.writes[id]| - 1)
  {
    hide ValidCheckpoint, Evolves, Inv, Step, Terminal;
    var w := Run(EMPTY, ops);
    EmptyOk();
    RunKeeps(EMPTY, ops);
    ReadChain(w, id, i, j);
  }

  lemma ReadChain(w: World, id: string, i: nat, j: nat)
    requires Inv(w) && id in w.writes && i <= j < |w.writes[id]|
    ensures && id in w.items && |w.writes[id]| == w.items[id].revision
            && w.writes[id][|w.writes[id]| - 1].execution == w.items[id]
            && w.writes[id][i].execution.revision == i + 1
            && ValidCheckpoint(w.writes[id][i].execution)
            && Evolves(w.writes[id][i].execution, w.writes[id][j].execution)
            && (Terminal(w.writes[id][i].execution.status) ==> i == |w.writes[id]| - 1)
  {
    hide ValidCheckpoint, Guarded, LeasesOk, FenceOk, AllTokensKnown, Fenced;
    var writes := w.writes[id];
    assert HistoryOk(id, w.items[id], writes);
    assert Link(writes, id, i) && Link(writes, id, |writes| - 1);
    ChainEvolves(id, writes, i, j);
    ChainEvolves(id, writes, i, |writes| - 1);
  }

  /**
   In every run, a write that met a lease record carried that record's owner and token
   before its limit, and tokens never go back along the chain: once a later tenure has
   written, no write of an earlier tenure is accepted under a lease.
   */
  lemma WritesAreFenced(ops: seq<Op>, id: string, i: nat, j: nat)
    requires var w := Run(EMPTY, ops); id in w.writes && i <= j < |w.writes[id]|
    requires var w := Run(EMPTY, ops); w.writes[id][i].lease.Some? && w.writes[id][j].lease.Some?
    ensures var w := Run(EMPTY, ops);
            var write, lease := w.writes[id][i], w.writes[id][i].lease.value;
            && write.claim.Some? && write.claim.value.execution.id == id
            && write.claim.value.owner == lease.owner && write.claim.value.token == lease.token
            && write.at < lease.until
            && lease.token <= w.writes[id][j].lease.value.token
            && TenureOf(w.tenures, lease.token, id)
  {
    hide Inv, Step;
    var w := Run(EMPTY, ops);
    EmptyOk();
    RunKeeps(EMPTY, ops);
    ReadFence(w, id, i, j);
  }

  lemma ReadFence(w: World, id: string, i: nat, j: nat)
    requires Inv(w) && id in w.writes && i <= j < |w.writes[id]|
    requires w.writes[id][i].lease.Some? && w.writes[id][j].lease.Some?
    ensures && Guarded(w.writes[id][i]) && w.writes[id][i].execution.id == id
            && w.writes[id][i].lease.value.token <= w.writes[id][j].lease.value.token
            && TenureOf(w.tenures, w.writes[id][i].lease.value.token, id)
  {
    assert HistoryOk(id, w.items[id], w.writes[id]);
    assert TokensKnown(id, w.writes[id], w.tenures);
    assert Link(w.writes[id], id, i) && Link(w.writes[id], id, j);
  }

  // ---- No lost update ----

  /** A step leaves a stored execution alone or stores its successor. */
  lemma StepMovesOn(w: World, op: Op, id: string)
    requires Inv(w) && id in w.items
    ensures var w' := Step(w, op);
            && id in w'.items && id in w.writes && id in w'.writes
            && w.items[id].revision <= w'.items[id].revision
            && w.writes[id] <= w'.writes[id]
  {
    hide Step, HistoryOk, LeasesOk, FenceOk, AllTokensKnown;
    if op.Create? || op.Update? {
      WriteMovesOn(w, op, id);
    } else if op.ClaimReady? {
      ReadyMovesNothing(w, op);
    } else {
      LeaseStepsMoveNothing(w, op);
    }
  }

  lemma LeaseStepsMoveNothing(w: World, op: Op)
    requires op.Claim? || op.Renew? || op.Release?
    ensures Step(w, op).items == w.items && Step(w, op).writes == w.writes
    ensures Step(w, op).clock == Tick(w, op.now).clock
  {
    hide Terminal, ValidLeaseRequest, Blank, World.Leased, World.LeaseOf;
  }

  lemma WriteMovesOn(w: World, op: Op, id: string)
    requires Inv(w) && id in w.items && (op.Create? || op.Update?)
    ensures var w' := Step(w, op);
            && id in w'.items && id in w.writes && id in w'.writes
            && w.items[id].revision <= w'.items[id].revision
            && w.writes[id] <= w'.writes[id]
  {
    hide ValidCheckpoint, MayStore, LeaseAllows, HistoryOk, LeasesOk, FenceOk, AllTokensKnown;
  }

  lemma ReadyMovesNothing(w: World, op: Op)
    requires op.ClaimReady?
    ensures Step(w, op).items == w.items && Step(w, op).writes == w.writes
    ensures Step(w, op).clock == Tick(w, op.now).clock
  {
    hide Blank, ValidWorkerName, GrantAll, Oldest, ReadyKeys;
    var r := op.request;
    if ValidReadyRequest(r) && op.caller.Authenticated() {
      ChosenIds(w, op.caller, r.statuses, op.now, r.limit);
      GrantAllFrame(Tick(w, op.now), Oldest(ReadyKeys(w, op.caller, r.statuses, op.now), r.limit),
                    r.owner, op.now + r.duration, op.now);
    }
  }

  lemma {:induction false} RunMovesOn(w: World, ops: seq<Op>, id: string)
    requires Inv(w) && id in w.items
    ensures var w' := Run(w, ops);
            && Inv(w') && id in w'.items && id in w.writes && id in w'.writes
            && w.items[id].revision <= w'.items[id].revision
            && w.writes[id] <= w'.writes[id]
  {
    hide Step, HistoryOk, LeasesOk, FenceOk, AllTokensKnown;
    if ops != [] {
      RunMovesOn(w, ops[..|ops| - 1], id);
      StepMovesOn(Run(w, ops[..|ops| - 1]), ops[|ops| - 1], id);
      StepKeeps(Run(w, ops[..|ops| - 1]), ops[|ops| - 1]);
    }
  }

  /**
   A writer that holds an older revision is refused after any further run, and the refusal
   leaves the tables as they were: no update is lost.
   */
  lemma StaleWriterIsRefusedForever(w: World, ops: seq<Op>, late: Op)
    requires Inv(w) && late.Update? && late.execution.id in w.items
    requires late.execution.revision < w.items[late.execution.id].revision
    ensures var w' := Run(w, ops);
            && !UpdateAccepted(w', late.caller, late.execution, late.claim, late.now, late.stamp)
            && Step(w', late).items == w'.items && Step(w', late).leases == w'.leases
            && Step(w', late).writes == w'.writes
  {
    hide ValidCheckpoint, Inv;
    RunMovesOn(w, ops, late.execution.id);
  }

  /** A worker whose token is not the one on record cannot write while any record stands, expired or not. */
  lemma SupersededWorkerIsRefused(w: World, late: Op)
    requires Inv(w) && late.Update? && late.execution.id in w.leases
    requires late.claim.Some? ==> late.claim.value.token != w.leases[late.execution.id].token
    ensures !UpdateAccepted(w, late.caller, late.execution, late.claim, late.now, late.stamp)
  {
    LeaseRecord(w, late.execution.id);
  }

  /**
   In every run: once a later tenure of the execution has begun, a write that carries the
   earlier tenure's token is accepted exactly when no lease record stands any more and the
   write is otherwise good, its revision included. Fencing refuses it only while a record
   stands; after a release the revision alone protects.
   */
  lemma SupersededWriteAcceptedIff(ops: seq<Op>, t: int, u: int, late: Op)
    requires late.Update? && late.claim.Some? && late.claim.value.token == t
    requires var w := Run(EMPTY, ops);
             && t in w.tenures && u in w.tenures && t < u
             && w.tenures[t].id == w.tenures[u].id == late.execution.id
    ensures var w, e := Run(EMPTY, ops), late.execution;
            UpdateAccepted(w, late.caller, e, late.claim, late.now, late.stamp) <==>
            && e.id !in w.leases
            && MayStore(late.caller, e) && e.id in w.items && e.revision == w.items[e.id].revision
            && ValidUpdate(w.items[e.id], e) && ValidCheckpoint(Stored(e, late.stamp))
  {
    EmptyOk();
    RunKeeps(EMPTY, ops);
    SupersededInState(Run(EMPTY, ops), t, u, late);
  }

  lemma SupersededInState(w: World, t: int, u: int, late: Op)
    requires Inv(w) && late.Update? && late.claim.Some? && late.claim.value.token == t
    requires t in w.tenures && u in w.tenures && t < u && w.tenures[t].id == w.tenures[u].id == late.execution.id
    ensures var e := late.execution;
            UpdateAccepted(w, late.caller, e, late.claim, late.now, late.stamp) <==>
            && e.id !in w.leases
            && MayStore(late.caller, e) && e.id in w.items && e.revision == w.items[e.id].revision
            && ValidUpdate(w.items[e.id], e) && ValidCheckpoint(Stored(e, late.stamp))
  {
    var e := late.execution;
    if e.id in w.leases {
      LeaseRecord(w, e.id);
      NoLaterTenure(w, e.id);
      assert u <= w.leases[e.id].token;
      SupersededWorkerIsRefused(w, late);
    }
    if e.id in w.items {
      assert HistoryOk(e.id, w.items[e.id], w.writes[e.id]);
      assert Link(w.writes[e.id], e.id, |w.writes[e.id]| - 1);
    }
    hide ValidCheckpoint, MayStore, SameIdentity;
  }

  lemma RunOneMore(w: World, ops: seq<Op>, op: Op)
    ensures Run(w, ops + [op]) == Step(Run(w, ops), op)
    ensures OnTime(w, ops + [op]) <==> OnTime(w, ops) && Run(w, ops).clock <= op.now
  {
    assert (ops + [op])[..|ops|] == ops;
    hide Step;
  }

  // ---- Expired records ----

  /** The execution was claimed anew on the way from one store to the other. */
  ghost predicate Reclaimed(w: World, w': World, id: string) {
    exists t :: NewToken(w, w', t) && w'.tenures[t].id == id
  }

  /** Neither the execution nor its lease record changed. */
  predicate Frozen(w: World, w': World, id: string)
    requires id in w.items && id in w.leases
  {
    id in w'.items && w'.items[id] == w.items[id] && id in w'.leases && w'.leases[id] == w.leases[id]
  }

  predicate KeptOrReplaced(w: World, w': World, id: string)
    requires id in w.leases
  {
    id in w'.leases && (w'.leases[id] == w.leases[id] || w.nextFence < w'.leases[id].token)
  }

  lemma ClaimOnExpired(w: World, op: Op, id: string)
    requires Inv(w) && op.Claim? && id in w.leases && w.leases[id].until <= op.now
    ensures KeptOrReplaced(w, Step(w, op), id)
  {
    hide Blank, Terminal, ValidLeaseRequest, Principal.Authenticated, WritesOk, AllTokensKnown;
  }

  lemma RenewOnExpired(w: World, op: Op, id: string)
    requires Inv(w) && (op.Renew? || op.Release?) && id in w.leases && w.leases[id].until <= op.now
    ensures KeptOrReplaced(w, Step(w, op), id)
  {
    LeaseRecord(w, id);
    hide Inv, ValidLeaseRequest, Principal.Authenticated;
  }

  lemma ReadyOnExpired(w: World, op: Op, id: string)
    requires Inv(w) && op.ClaimReady? && id in w.leases
    ensures KeptOrReplaced(w, Step(w, op), id)
  {
    hide Inv, GrantAll, Oldest, ReadyKeys, ValidWorkerName, Principal.Authenticated;
    var r := op.request;
    if ValidReadyRequest(r) && op.caller.Authenticated() {
      ChosenIds(w, op.caller, r.statuses, op.now, r.limit);
      var chosen := Oldest(ReadyKeys(w, op.caller, r.statuses, op.now), r.limit);
      GrantAllFrame(Tick(w, op.now), chosen, r.owner, op.now + r.duration, op.now);
      if id in Ids(chosen) {
        var k :| k in chosen && k.id == id;
        var i :| 0 <= i < |chosen| && chosen[i] == k;
        assert Step(w, op).LeaseOf(chosen[i].id) == Lease(r.owner, w.nextFence + i + 1, op.now + r.duration);
      }
    }
  }

  /** An expired record keeps every writer out, its own holder too. */
  lemma ExpiredRecordBlocksEveryWriter(w: World, late: Op)
    requires Inv(w) && late.Update? && late.execution.id in w.leases
    requires w.leases[late.execution.id].until <= late.now
    ensures !UpdateAccepted(w, late.caller, late.execution, late.claim, late.now, late.stamp)
  {
    LeaseRecord(w, late.execution.id);
  }

  lemma WriteOnExpired(w: World, op: Op, id: string)
    requires Inv(w) && (op.Create? || op.Update?) && id in w.leases && w.leases[id].until <= op.now
    ensures id in w.items && Frozen(w, Step(w, op), id)
  {
    LeaseRecord(w, id);
    if op.Update? && op.execution.id == id { ExpiredRecordBlocksEveryWriter(w, op); }
    hide Inv, ValidCheckpoint, ValidUpdate, MayStore, LeaseAllows;
  }

  /** Only a claim gets past an expired record: it can be neither renewed nor released, and admits no write. */
  lemma StepOnExpired(w: World, op: Op, id: string)
    requires Inv(w) && id in w.leases && w.leases[id].until <= op.now
    ensures id in w.items && (Frozen(w, Step(w, op), id) || Reclaimed(w, Step(w, op), id))
  {
    hide Step, Inv, TimeInv, Reclaimed, NewToken, Tick;
    var w' := Step(w, op);
    LeaseRecord(w, id);
    StepKeeps(w, op);
    if op.Create? || op.Update? {
      WriteOnExpired(w, op, id);
    } else {
      match op {
        case Claim(_, _, _, _, _) => ClaimOnExpired(w, op, id); LeaseStepsMoveNothing(w, op);
        case ClaimReady(_, _, _) => ReadyOnExpired(w, op, id); ReadyMovesNothing(w, op);
        case _ => RenewOnExpired(w, op, id); LeaseStepsMoveNothing(w, op);
      }
      if w'.leases[id] != w.leases[id] { ReplacedMeansReclaimed(w, w', id); }
    }
  }

  lemma ReplacedMeansReclaimed(w: World, w': World, id: string)
    requires Inv(w) && Inv(w') && id in w'.leases && w.nextFence < w'.leases[id].token
    ensures Reclaimed(w, w', id)
  {
    assert LeaseOk(id, w'.leases[id], w'.tenures);
    assert NewToken(w, w', w'.leases[id].token);
  }

  /**
   Along every run whose clocks do not go back: while a record is past its limit the execution
   stays exactly as it is, and so does the record, until somebody claims the execution anew.
   The holder's own writes, renewals and releases are among those refused.
   */
  lemma {:induction false} ExpiredRecordFreezesExecution(w: World, ops: seq<Op>, id: string)
    requires Inv(w) && OnTime(w, ops) && id in w.leases && w.leases[id].until <= w.clock
    ensures id in w.items && (Frozen(w, Run(w, ops), id) || Reclaimed(w, Run(w, ops), id))
    ensures w.clock <= Run(w, ops).clock && TokensKept(w, Run(w, ops))
  {
    hide Inv, Step;
    LeaseRecord(w, id);
    if ops != [] {
      var front, op := ops[..|ops| - 1], ops[|ops| - 1];
      ExpiredRecordFreezesExecution(w, front, id);
      RunKeeps(w, front);
      var w0 := Run(w, front);
      StepGrantsFresh(w0, op);
      ClockMoves(w0, op);
      if Frozen(w, w0, id) { StepOnExpired(w0, op, id); }
    }
  }

  /** No token is forgotten or passes to another execution. */
  ghost predicate TokensKept(w: World, w': World) {
    forall t :: t in w.tenures ==> t in w'.tenures && w'.tenures[t].id == w.tenures[t].id
  }

  lemma ClockMoves(w: World, op: Op)
    requires w.clock <= op.now
    ensures Step(w, op).clock == op.now
  {
    if op.ClaimReady? {
      ReadyMovesNothing(w, op);
    } else if !op.Create? && !op.Update? {
      LeaseStepsMoveNothing(w, op);
    }
    hide ClaimReadyStep, ClaimStep, RenewStep, ReleaseStep, ValidCheckpoint, UpdateAccepted, MayStore;
  }
}
