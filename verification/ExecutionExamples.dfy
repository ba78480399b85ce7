/** Concrete runs of the execution store in which a guard one might rely on does not hold. */
module ExecutionExamples {
  import opened Results
  import opened Text
  import opened Checkpoint
  import opened LeaseHistory
  import opened ExecutionStore
  import opened ExecutionRuns
  import opened Recovery

  const OWNER := Principal("t", "a", [])
  const LEASE := ExecutionStore.SECOND

  /** An execution of one step that is running; revision 0 as created. */
  function Example(revision: nat): Execution {
    Execution("e", "w", 1, revision, OWNER, Running, map[], map[], map[],
              [StepExecution("s", StepRunning, 0, None, 0, None)], 0, "", 1, 0, revision, 0, None)
  }

  lemma ExampleIsGood()
    ensures ValidCheckpoint(Example(1)) && Example(1) == Stored(Example(0), 1)
    ensures OWNER.Authenticated() && MayStore(OWNER, Example(0)) && MayStore(OWNER, Example(1))
    ensures ValidLeaseRequest("A", LEASE) && ValidLeaseRequest("B", LEASE)
  {
    assert TrimSpace("t") == "t" && TrimSpace("a") == "a" && TrimSpace("A") == "A" && TrimSpace("B") == "B";
  }

  lemma CreatesExample()
    ensures CreateStep(EMPTY, OWNER, Example(0), 1).0 == Append(Tick(EMPTY, 1), Example(1), None, 1)
  {
    ExampleIsGood();
    hide ValidCheckpoint, MayStore;
  }

  /** A claim of an execution that no live lease holds grants the next token. */
  lemma ClaimGrants(w: World, owner: string, now: nat)
    requires "e" in w.items && w.items["e"].principal == OWNER && !Terminal(w.items["e"].status)
    requires OWNER.Authenticated() && ValidLeaseRequest(owner, LEASE) && !w.Leased("e", now)
    ensures ClaimStep(w, OWNER, "e", owner, LEASE, now) ==
            (Grant(Tick(w, now), "e", owner, now + LEASE, now),
             Ok(Some(ExecutionClaim(w.items["e"], owner, w.nextFence + 1, now + LEASE))))
  {
    hide ValidLeaseRequest, Principal.Authenticated;
  }

  lemma ReleaseFinishes(w: World, claim: ExecutionClaim, now: nat)
    requires "e" in w.items && w.items["e"].principal == OWNER && OWNER.Authenticated()
    requires claim.execution.id == "e" && w.LeaseOf("e") == Lease(claim.owner, claim.token, claim.leaseUntil)
    requires now < claim.leaseUntil
    ensures ReleaseStep(w, OWNER, claim, now).0 == Finish(Tick(w, now), "e", now)
  {
    hide Principal.Authenticated;
  }

  // ---- Fencing ends with the record ----

  const FIRST := ExecutionClaim(Example(1), "A", 1, 2 + LEASE)
  const SECOND_CLAIM := ExecutionClaim(Example(1), "B", 2, 3 + LEASE + LEASE)
  const AFTER_CREATE := Append(Tick(EMPTY, 1), Example(1), None, 1)
  const AFTER_FIRST := Grant(Tick(AFTER_CREATE, 2), "e", "A", 2 + LEASE, 2)
  const AFTER_SECOND := Grant(Tick(AFTER_FIRST, 3 + LEASE), "e", "B", 3 + LEASE + LEASE, 3 + LEASE)
  const AFTER_RELEASE := Finish(Tick(AFTER_SECOND, 4 + LEASE), "e", 4 + LEASE)

  const TAKEOVER: seq<Op> :=
    [Create(OWNER, Example(0), 1), Claim(OWNER, "e", "A", LEASE, 2),
     Claim(OWNER, "e", "B", LEASE, 3 + LEASE), Release(OWNER, SECOND_CLAIM, 4 + LEASE)]

  lemma TakeoverRuns()
    ensures Run(EMPTY, TAKEOVER) == AFTER_RELEASE && OnTime(EMPTY, TAKEOVER)
  {
    ExampleIsGood();
    CreatesExample();
    hide ValidCheckpoint, MayStore, ValidLeaseRequest, Principal.Authenticated, OnTime;
    ClaimGrants(AFTER_CREATE, "A", 2);
    ClaimGrants(AFTER_FIRST, "B", 3 + LEASE);
    ReleaseFinishes(AFTER_SECOND, SECOND_CLAIM, 4 + LEASE);
    hide CreateStep, ClaimStep, ReleaseStep;
    TakeoverInSteps();
  }

  lemma TakeoverInSteps()
    requires Step(EMPTY, TAKEOVER[0]) == AFTER_CREATE && Step(AFTER_CREATE, TAKEOVER[1]) == AFTER_FIRST
    requires Step(AFTER_FIRST, TAKEOVER[2]) == AFTER_SECOND && Step(AFTER_SECOND, TAKEOVER[3]) == AFTER_RELEASE
    ensures Run(EMPTY, TAKEOVER) == AFTER_RELEASE && OnTime(EMPTY, TAKEOVER)
  {
    hide Step;
    RunOneMore(EMPTY, [], TAKEOVER[0]);
    RunOneMore(EMPTY, [TAKEOVER[0]], TAKEOVER[1]);
    RunOneMore(EMPTY, [TAKEOVER[0], TAKEOVER[1]], TAKEOVER[2]);
    RunOneMore(EMPTY, [TAKEOVER[0], TAKEOVER[1], TAKEOVER[2]], TAKEOVER[3]);
    assert [] + [TAKEOVER[0]] == [TAKEOVER[0]];
    assert [TAKEOVER[0]] + [TAKEOVER[1]] == [TAKEOVER[0], TAKEOVER[1]];
    assert [TAKEOVER[0], TAKEOVER[1]] + [TAKEOVER[2]] == [TAKEOVER[0], TAKEOVER[1], TAKEOVER[2]];
    assert [TAKEOVER[0], TAKEOVER[1], TAKEOVER[2]] + [TAKEOVER[3]] == TAKEOVER;
  }

  /**
   A claims and stalls, its lease lapses, B claims and releases without writing, and then
   A's write under the first token is accepted.
   */
  lemma SupersededWriteAfterRelease()
    ensures var w, now := Run(EMPTY, TAKEOVER), 5 + LEASE;
            && OnTime(EMPTY, TAKEOVER) && w.clock <= now
            && 1 in w.tenures && w.tenures[1].id == "e" && w.tenures[1].owner == FIRST.owner
            && 2 in w.tenures && w.tenures[2].id == "e" && w.tenures[2].owner != FIRST.owner
            && FIRST.token == 1 && FIRST.execution.id == "e"
            && UpdateAccepted(w, OWNER, Example(1), Some(FIRST), now, now)
  {
    TakeoverRuns();
    ExampleIsGood();
  }

  // ---- A resumption that the store refuses ----

  /** The same execution once it waits for an approval, with its step still marked as running. */
  const WAITING := Example(1).(status := AwaitingApproval, pendingApprovalID := "p")
  const AFTER_WAITING := Append(Tick(AFTER_CREATE, 2), Stored(WAITING, 2), None, 2)

  lemma WaitingIsStored()
    ensures UpdateAccepted(AFTER_CREATE, OWNER, WAITING, None, 2, 2)
    ensures UpdateStep(AFTER_CREATE, OWNER, WAITING, None, 2, 2) == AFTER_WAITING
  {
    ExampleIsGood();
    hide Principal.Authenticated;
    assert ValidCheckpoint(Stored(WAITING, 2));
    hide ValidCheckpoint;
  }

  /**
   A worker reads the execution as running; before it claims, the execution is set to wait for
   an approval. The claim succeeds, the current step is still a running tool call, and the
   recovery checkpoint that follows is refused whatever the clock shows.
   */
  lemma InterruptionRefusedAfterApproval(step: VersionStep, now: nat, stamp: nat) returns (claim: ExecutionClaim)
    ensures AFTER_CREATE.items["e"].status.Running?
    ensures UpdateAccepted(AFTER_CREATE, OWNER, WAITING, None, 2, 2)
    ensures var w := UpdateStep(AFTER_CREATE, OWNER, WAITING, None, 2, 2);
            var (claimed, r) := ClaimStep(w, OWNER, "e", "A", LEASE, 3);
            && r == Ok(Some(claim)) && ValidCheckpoint(claim.execution)
            && 0 <= claim.execution.nextStep < |claim.execution.steps|
            && CurrentStep(claim.execution).status.StepRunning?
            && !UpdateAccepted(claimed, OWNER, InterruptedCheckpoint(claim.execution, step), Some(claim), now, stamp)
  {
    ExampleIsGood();
    WaitingIsStored();
    ClaimGrants(AFTER_WAITING, "A", 3);
    claim := ExecutionClaim(Stored(WAITING, 2), "A", 1, 3 + LEASE);
    assert UpdateAccepted(AFTER_CREATE, OWNER, WAITING, None, 2, 2);
    hide ClaimStep, UpdateStep, MayStore, LeaseAllows, ValidLeaseRequest, Principal.Authenticated;
  }
}
