/**
 The execution store as one value: its tables, and the history that the claims about
 every interleaving speak of. A history entry is made exactly when a worker is granted
 a token, when a tenure is extended or released, and when a write is accepted.
 */
module LeaseHistory {
  import opened Results
  import opened Text
  import opened Checkpoint

  datatype Lease = Lease(owner: string, token: int, until: nat)

  /** What Go reads from the lease table for an identifier that has no record. */
  const NO_LEASE := Lease("", 0, 0)

  datatype ExecutionClaim = ExecutionClaim(execution: Execution, owner: string, token: int, leaseUntil: nat)

  /** The time one token was in force. `until` is the last agreed limit. */
  datatype Tenure = Tenure(id: string, owner: string, from: nat, until: nat, released: Option<nat>) {
    function End(): nat {
      if released.Some? then released.value else until
    }
  }

  /** An accepted write with the claim it carried and the lease record it met. */
  datatype Write = Write(execution: Execution, claim: Option<ExecutionClaim>, lease: Option<Lease>, at: nat)

  datatype World = World(
    items: map<string, Execution>, leases: map<string, Lease>, nextFence: int,
    clock: nat, tenures: map<int, Tenure>, writes: map<string, seq<Write>>)
  {
    function LeaseOf(id: string): Lease {
      if id in leases then leases[id] else NO_LEASE
    }

    predicate Leased(id: string, now: nat) {
      LeaseOf(id).owner != "" && now < LeaseOf(id).until
    }
  }

  const EMPTY := World(map[], map[], 0, 0, map[], map[])

  // ---- The four ways the store changes ----

  /** Hands the execution to `owner` under the next token. */
  function Grant(w: World, id: string, owner: string, until: nat, now: nat): World {
    var token := w.nextFence + 1;
    w.(leases := w.leases[id := Lease(owner, token, until)], nextFence := token,
       tenures := w.tenures[token := Tenure(id, owner, now, until, None)])
  }

  /** Moves the limit of the tenure in force. */
  function Extend(w: World, id: string, until: nat): World {
    var lease := w.LeaseOf(id);
    w.(leases := w.leases[id := lease.(until := until)],
       tenures := if lease.token in w.tenures
                  then w.tenures[lease.token := w.tenures[lease.token].(until := until)] else w.tenures)
  }

  /** Ends the tenure in force and forgets its lease record. */
  function Finish(w: World, id: string, now: nat): World {
    var token := w.LeaseOf(id).token;
    w.(leases := w.leases - {id},
       tenures := if token in w.tenures
                  then w.tenures[token := w.tenures[token].(released := Some(now))] else w.tenures)
  }

  /** Stores a checkpoint. */
  function Append(w: World, e: Execution, claim: Option<ExecutionClaim>, now: nat): World {
    var lease := if e.id in w.leases then Some(w.leases[e.id]) else None;
    var before := if e.id in w.writes then w.writes[e.id] else [];
    w.(items := w.items[e.id := e], writes := w.writes[e.id := before + [Write(e, claim, lease, now)]])
  }

  function Tick(w: World, now: nat): World {
    w.(clock := if now > w.clock then now else w.clock)
  }

  // ---- What every reachable store satisfies ----

  /** The stored checkpoint follows `previous` by one accepted update. */
  predicate Follows(previous: Execution, stored: Execution) {
    stored.revision == previous.revision + 1 && ValidUpdate(previous, stored.(revision := previous.revision))
  }

  /** A write that met a lease record carried that record's owner and token before its limit. */
  predicate Guarded(write: Write) {
    write.lease.Some? ==>
      && write.claim.Some? && write.claim.value.execution.id == write.execution.id
      && write.claim.value.owner == write.lease.value.owner
      && write.claim.value.token == write.lease.value.token
      && write.at < write.lease.value.until
  }

  predicate Link(writes: seq<Write>, id: string, k: nat)
    requires k < |writes|
  {
    && writes[k].execution.id == id && writes[k].execution.revision == k + 1
    && ValidCheckpoint(writes[k].execution) && Guarded(writes[k])
    && (k > 0 ==> Follows(writes[k - 1].execution, writes[k].execution))
  }

  /** The accepted writes to one execution are the single chain of revisions 1, 2, 3, ... */
  ghost predicate Chain(id: string, writes: seq<Write>) {
    |writes| >= 1 && forall k :: 0 <= k < |writes| ==> Link(writes, id, k)
  }

  /** Tokens never go back along the chain: a superseded worker's write is not accepted. */
  ghost predicate Fenced(writes: seq<Write>) {
    forall j, k :: 0 <= j < k < |writes| && writes[j].lease.Some? && writes[k].lease.Some?
      ==> writes[j].lease.value.token <= writes[k].lease.value.token
  }

  predicate TenureOf(tenures: map<int, Tenure>, t: int, id: string) {
    t in tenures && tenures[t].id == id
  }

  ghost predicate TokensKnown(id: string, writes: seq<Write>, tenures: map<int, Tenure>) {
    forall k :: 0 <= k < |writes| && writes[k].lease.Some? ==>
      TenureOf(tenures, writes[k].lease.value.token, id)
  }

  ghost predicate HistoryOk(id: string, stored: Execution, writes: seq<Write>) {
    Chain(id, writes) && Fenced(writes) && writes[|writes| - 1].execution == stored
  }

  ghost predicate WritesOk(items: map<string, Execution>, writes: map<string, seq<Write>>) {
    && items.Keys == writes.Keys
    && forall id :: id in items ==> HistoryOk(id, items[id], writes[id])
  }

  ghost predicate AllTokensKnown(writes: map<string, seq<Write>>, tenures: map<int, Tenure>) {
    forall id :: id in writes ==> TokensKnown(id, writes[id], tenures)
  }

  /** A lease record speaks of the latest tenure of its execution, which is still open. */
  ghost predicate LeaseOk(id: string, l: Lease, tenures: map<int, Tenure>) {
    && l.owner != "" && TenureOf(tenures, l.token, id)
    && tenures[l.token].owner == l.owner && tenures[l.token].until == l.until
    && tenures[l.token].released.None?
    && forall t :: TenureOf(tenures, t, id) ==> t <= l.token
  }

  ghost predicate LeasesOk(leases: map<string, Lease>, tenures: map<int, Tenure>) {
    forall id :: id in leases ==> LeaseOk(id, leases[id], tenures)
  }

  ghost predicate FenceOk(nextFence: int, tenures: map<int, Tenure>) {
    nextFence >= 0 && forall t :: t in tenures ==> 1 <= t <= nextFence
  }

  ghost predicate Inv(w: World) {
    && WritesOk(w.items, w.writes) && AllTokensKnown(w.writes, w.tenures)
    && w.leases.Keys <= w.items.Keys
    && LeasesOk(w.leases, w.tenures) && FenceOk(w.nextFence, w.tenures)
  }

  predicate InForce(leases: map<string, Lease>, tenures: map<int, Tenure>, t: int) {
    t in tenures && tenures[t].id in leases && leases[tenures[t].id].token == t
  }

  ghost predicate TenureOk(leases: map<string, Lease>, tenures: map<int, Tenure>, clock: nat, t: int)
    requires t in tenures
  {
    && tenures[t].from <= clock && tenures[t].from <= tenures[t].End()
    && (!InForce(leases, tenures, t) ==> tenures[t].End() <= clock)
  }

  /** Two tenures of one execution never overlap. */
  ghost predicate Disjoint(tenures: map<int, Tenure>) {
    forall t, u :: t in tenures && u in tenures && t < u && tenures[t].id == tenures[u].id ==>
      tenures[t].End() <= tenures[u].from
  }

  /** What holds besides when the clock readings of successive steps do not decrease. */
  ghost predicate TimeInv(w: World) {
    && (forall t :: t in w.tenures ==> TenureOk(w.leases, w.tenures, w.clock, t))
    && Disjoint(w.tenures)
  }

  lemma EmptyOk()
    ensures Inv(EMPTY) && TimeInv(EMPTY)
  {}

  lemma TickKeeps(w: World, now: nat)
    requires Inv(w)
    ensures Inv(Tick(w, now)) && (TimeInv(w) ==> TimeInv(Tick(w, now)))
  {
    if TimeInv(w) {
      forall t | t in w.tenures
        ensures TenureOk(w.leases, w.tenures, Tick(w, now).clock, t)
      {
        assert TenureOk(w.leases, w.tenures, w.clock, t);
      }
    }
  }

  // ---- Each change keeps it ----

  /** Tenures may come and move, but none changes its execution. */
  lemma TokensStayKnown(writes: map<string, seq<Write>>, tenures: map<int, Tenure>, tenures': map<int, Tenure>)
    requires AllTokensKnown(writes, tenures)
    requires forall t :: t in tenures ==> t in tenures' && tenures'[t].id == tenures[t].id
    ensures AllTokensKnown(writes, tenures')
  {
    forall id | id in writes
      ensures TokensKnown(id, writes[id], tenures')
    {
      assert TokensKnown(id, writes[id], tenures);
    }
  }

  lemma GrantKeeps(w: World, id: string, owner: string, until: nat, now: nat)
    requires Inv(w) && id in w.items && owner != ""
    ensures Inv(Grant(w, id, owner, until, now))
    ensures forall t :: t in w.tenures ==> t < w.nextFence + 1
  {
    var w' := Grant(w, id, owner, until, now);
    TokensStayKnown(w.writes, w.tenures, w'.tenures);
    forall other | other in w'.leases
      ensures LeaseOk(other, w'.leases[other], w'.tenures)
    {
      if other != id { assert LeaseOk(other, w.leases[other], w.tenures); }
      forall t | TenureOf(w'.tenures, t, other)
        ensures t <= w'.leases[other].token
      {
        if other != id { assert TenureOf(w.tenures, t, other); }
      }
    }
  }

  /** A grant over a lease whose limit has passed, by a clock that has not gone back. */
  lemma GrantKeepsTime(w: World, id: string, owner: string, until: nat, now: nat)
    requires Inv(w) && TimeInv(w) && id in w.items
    requires now == w.clock && now <= until
    requires id in w.leases ==> w.leases[id].until <= now
    ensures TimeInv(Grant(w, id, owner, until, now))
  {
    var w' := Grant(w, id, owner, until, now);
    forall t | t in w.tenures
      ensures w.tenures[t].id == id ==> w.tenures[t].End() <= now
      ensures TenureOk(w'.leases, w'.tenures, w'.clock, t)
    {
      assert TenureOk(w.leases, w.tenures, w.clock, t);
      if InForce(w.leases, w.tenures, t) { assert LeaseOk(w.tenures[t].id, w.leases[w.tenures[t].id], w.tenures); }
    }
  }

  lemma ExtendKeeps(w: World, id: string, until: nat)
    requires Inv(w) && id in w.leases
    ensures Inv(Extend(w, id, until))
  {
    var w' := Extend(w, id, until);
    assert LeaseOk(id, w.leases[id], w.tenures);
    TokensStayKnown(w.writes, w.tenures, w'.tenures);
    forall other | other in w'.leases
      ensures LeaseOk(other, w'.leases[other], w'.tenures)
    {
      assert LeaseOk(other, w.leases[other], w.tenures);
      assert forall t :: TenureOf(w'.tenures, t, other) <==> TenureOf(w.tenures, t, other);
    }
  }

  lemma ExtendKeepsTime(w: World, id: string, until: nat)
    requires Inv(w) && TimeInv(w) && id in w.leases && w.clock <= until
    ensures TimeInv(Extend(w, id, until))
  {
    var w' := Extend(w, id, until);
    var token := w.leases[id].token;
    assert LeaseOk(id, w.leases[id], w.tenures);
    forall t | t in w'.tenures
      ensures TenureOk(w'.leases, w'.tenures, w'.clock, t)
    {
      assert TenureOk(w.leases, w.tenures, w.clock, t);
    }
    NoLaterTenure(w, id);
  }

  lemma NoLaterTenure(w: World, id: string)
    requires Inv(w) && id in w.leases
    ensures forall u :: u in w.tenures && w.tenures[u].id == id ==> u <= w.leases[id].token
  {
    assert LeaseOk(id, w.leases[id], w.tenures);
    assert forall u :: u in w.tenures && w.tenures[u].id == id ==> TenureOf(w.tenures, u, id);
  }

  lemma LeaseRecord(w: World, id: string)
    requires Inv(w) && id in w.leases
    ensures id in w.items && w.leases[id].owner != "" && w.leases[id].token in w.tenures
  {
    assert LeaseOk(id, w.leases[id], w.tenures);
  }

  lemma FinishKeeps(w: World, id: string, now: nat)
    requires Inv(w) && id in w.leases
    ensures Inv(Finish(w, id, now))
  {
    var w' := Finish(w, id, now);
    assert LeaseOk(id, w.leases[id], w.tenures);
    TokensStayKnown(w.writes, w.tenures, w'.tenures);
    forall other | other in w'.leases
      ensures LeaseOk(other, w'.leases[other], w'.tenures)
    {
      assert LeaseOk(other, w.leases[other], w.tenures);
      assert forall t :: TenureOf(w'.tenures, t, other) <==> TenureOf(w.tenures, t, other);
    }
  }

  lemma FinishKeepsTime(w: World, id: string, now: nat)
    requires Inv(w) && TimeInv(w) && id in w.leases && w.clock == now < w.leases[id].until
    ensures TimeInv(Finish(w, id, now))
  {
    var w' := Finish(w, id, now);
    assert LeaseOk(id, w.leases[id], w.tenures);
    forall t | t in w'.tenures
      ensures TenureOk(w'.leases, w'.tenures, w'.clock, t)
    {
      assert TenureOk(w.leases, w.tenures, w.clock, t);
    }
    NoLaterTenure(w, id);
  }

  /** The store lets a new execution in, or a successor of the stored checkpoint. */
  predicate Appendable(w: World, e: Execution) {
    && ValidCheckpoint(e)
    && if e.id in w.items then Follows(w.items[e.id], e) else e.revision == 1
  }

  lemma HistoryGrows(w: World, e: Execution, claim: Option<ExecutionClaim>, now: nat)
    requires Inv(w) && Appendable(w, e)
    requires e.id in w.leases ==> Guarded(Write(e, claim, Some(w.leases[e.id]), now))
    ensures var later := Append(w, e, claim, now).writes[e.id];
            HistoryOk(e.id, e, later) && TokensKnown(e.id, later, w.tenures)
  {
    hide ValidCheckpoint, Follows;
    var earlier := if e.id in w.writes then w.writes[e.id] else [];
    var later := Append(w, e, claim, now).writes[e.id];
    assert e.id in w.writes ==> HistoryOk(e.id, w.items[e.id], earlier) && TokensKnown(e.id, earlier, w.tenures);
    forall k | 0 <= k < |later|
      ensures Link(later, e.id, k)
    {
      if k < |earlier| { assert Link(earlier, e.id, k); }
      if k == |earlier| > 0 {
        assert Link(earlier, e.id, k - 1);
        RevisionOfSuccessor(w.items[e.id], e);
      }
    }
    if e.id in w.leases { assert LeaseOk(e.id, w.leases[e.id], w.tenures); }
    forall j, k | 0 <= j < k < |later| && later[j].lease.Some? && later[k].lease.Some?
      ensures later[j].lease.value.token <= later[k].lease.value.token
    {
      assert TenureOf(w.tenures, earlier[j].lease.value.token, e.id);
    }
  }

  lemma RevisionOfSuccessor(previous: Execution, stored: Execution)
    requires Follows(previous, stored)
    ensures stored.revision == previous.revision + 1
  {}

  lemma AppendKeeps(w: World, e: Execution, claim: Option<ExecutionClaim>, now: nat)
    requires Inv(w) && Appendable(w, e)
    requires e.id in w.leases ==> Guarded(Write(e, claim, Some(w.leases[e.id]), now))
    ensures Inv(Append(w, e, claim, now))
    ensures TimeInv(w) ==> TimeInv(Append(w, e, claim, now))
  {
    HistoryGrows(w, e, claim, now);
    hide Appendable, HistoryOk, TokensKnown, LeasesOk, TenureOk, Disjoint, FenceOk, Guarded;
  }
}
