/**
 One poll of a delivery worker: it claims a batch, hands each event to the sink and
 acknowledges or fails it, until its context is cancelled. What the sink answers, the clock
 shows and when the context ends are inputs. No other worker takes a step meanwhile.
 */
module DeliveryWorker {
  import opened Results
  import opened Text
  import opened Ordering
  import opened Checkpoint
  import opened Outbox
  import opened Backoff
  import opened Deliveries

  /**
   For one delivery: whether the context had ended before it, the answer of the sink, and the
   clock when the retry is planned and when it is recorded. `cut` says that the sink's error is
   a cancellation or a deadline, or that the context ended before the acknowledgement.
   */
  datatype Answer = Answer(stopped: bool, delivered: bool, cut: bool, plannedAt: nat, recordedAt: nat, error: string)

  type Sink = nat -> Answer

  datatype WorkerResult = WorkerResult(claimed: nat, delivered: nat, failed: nat, deadLettered: nat)

  /** How a poll ended; any cancellation or deadline among its errors makes it Interrupted. */
  datatype Outcome = Clean | Troubled | Interrupted

  datatype Poll = Poll(attemptedAt: nat, result: WorkerResult, outcome: Outcome, finishedAt: nat)

  datatype Health = Health(
    ready: bool, consecutiveFailures: nat, lastAttemptAt: nat, lastSuccessAt: nat, lastResult: WorkerResult)

  const NOTHING := WorkerResult(0, 0, 0, 0)
  const UNPROVEN := Health(false, 0, 0, 0, NOTHING)

  function FailureFor(s: Settings, worker: string, seen: Delivery, a: Answer): DeliveryFailure
    requires s.Valid()
  {
    FailureOf(s, worker, seen, a.plannedAt, a.recordedAt, a.error)
  }

  /** The outbox takes the report of this delivery. */
  predicate Recorded(s: Settings, worker: string, seen: Delivery, a: Answer)
    requires s.Valid()
  {
    if a.delivered then Taken(a) else ValidFailure(FailureFor(s, worker, seen, a))
  }

  /** A held delivery once its report is in; a report that is refused leaves it held. */
  function AfterReport(s: Settings, worker: string, held: Delivery, a: Answer): Delivery
    requires s.Valid()
  {
    if !Recorded(s, worker, held, a) then held
    else if a.delivered then Delivered(held, a.recordedAt)
    else FailedDelivery(held, FailureFor(s, worker, held, a))
  }

  /** The sink has the event and the outbox has the acknowledgement. */
  predicate Taken(a: Answer) {
    a.delivered && a.recordedAt != 0 && !a.cut
  }

  /** How many of n deliveries are tried before the context ends. */
  function Tried(sink: Sink, n: nat): (tried: nat)
    ensures tried <= n
  {
    if n == 0 then 0
    else
      var before := Tried(sink, n - 1);
      if before < n - 1 || sink(n - 1).stopped then before else n
  }

  /** A poll over n deliveries ends this way. */
  ghost predicate EndsAs(outcome: Outcome, sink: Sink, n: nat) {
    var tried := Tried(sink, n);
    && (outcome.Interrupted? <==> tried < n || exists i :: 0 <= i < tried && sink(i).cut)
    && (outcome.Clean? <==> tried == n && forall i :: 0 <= i < n ==> Taken(sink(i)))
  }

  /** What one more report makes of the outcome so far. */
  function Join(soFar: Outcome, a: Answer): Outcome {
    if a.cut || soFar.Interrupted? then Interrupted else if Taken(a) then soFar else Troubled
  }

  predicate LastTry(s: Settings, d: Delivery) {
    d.attempts + 1 >= s.maxAttempts
  }

  /** The counters after the first n deliveries. */
  function Tally(s: Settings, claimed: seq<Delivery>, sink: Sink, n: nat): WorkerResult
    requires n <= |claimed|
  {
    if n == 0 then WorkerResult(|claimed|, 0, 0, 0)
    else
      var t, d, a := Tally(s, claimed, sink, n - 1), claimed[n - 1], sink(n - 1);
      if a.delivered then (if Taken(a) then t.(delivered := t.delivered + 1) else t)
      else t.(failed := t.failed + 1, deadLettered := t.deadLettered + if LastTry(s, d) then 1 else 0)
  }

  class Worker {
    const settings: Settings
    const caller: Principal
    const workerID: string
    const batchSize: int
    const leaseDuration: int
    var health: Health

    constructor (settings: Settings, caller: Principal, workerID: string, batchSize: int, leaseDuration: int)
      ensures this.settings == settings && this.caller == caller && this.workerID == workerID
      ensures this.batchSize == batchSize && this.leaseDuration == leaseDuration
      ensures health == UNPROVEN
    {
      this.settings, this.caller, this.workerID := settings, caller, workerID;
      this.batchSize, this.leaseDuration := batchSize, leaseDuration;
      health := UNPROVEN;
    }

    function Request(now: nat): LeaseRequest {
      LeaseRequest(workerID, batchSize, leaseDuration, now)
    }

    /** Claims, delivers and reports; `cancelled` when the context has ended before the claim. */
    method RunOnce(outbox: MemoryOutbox, now: nat, cancelled: bool, sink: Sink, finishedAt: nat)
      returns (result: WorkerResult, outcome: Outcome)
      requires settings.Valid() && outbox.Valid()
      modifies this, outbox
      ensures outbox.Valid()
      ensures cancelled || !ClaimGranted(caller, Request(now)) ==>
                && result == NOTHING && outcome == (if cancelled then Interrupted else Troubled)
                && outbox.items == old(outbox.items)
      ensures !cancelled && ClaimGranted(caller, Request(now)) ==>
                var chosen := Chosen(old(outbox.items), caller.tenantID, Request(now));
                var tried := Tried(sink, |chosen|);
                && SettledUpTo(outbox.items, old(outbox.items), chosen, now + leaseDuration, sink, tried)
                && result == Tally(settings, HeldOf(old(outbox.items), chosen, now + leaseDuration), sink, tried)
                && EndsAs(outcome, sink, |chosen|)
      ensures health == HealthAfter(old(health), Poll(now, result, outcome, finishedAt))
    {
      result, outcome := Deliver(outbox, now, cancelled, sink);
      RecordHealth(Poll(now, result, outcome, finishedAt));
    }

    method RecordHealth(poll: Poll)
      modifies `health
      ensures health == HealthAfter(old(health), poll)
    {
      health := health.(lastAttemptAt := poll.attemptedAt, lastResult := poll.result);
      if !poll.outcome.Clean? {
        if poll.outcome.Interrupted? { return; }
        health := health.(ready := false, consecutiveFailures := health.consecutiveFailures + 1);
        return;
      }
      health := health.(ready := true, lastSuccessAt := poll.finishedAt, consecutiveFailures := 0);
    }

    /** The deliveries as the claim hands them out. */
    ghost function HeldOf(items: Items, chosen: seq<Key>, until: nat): seq<Delivery> {
      seq(|chosen|, i requires 0 <= i < |chosen| =>
        if chosen[i].id in items then Held(items[chosen[i].id], workerID, until)
        else NewDelivery(Event("", "", 0, "", ""), 0))
    }

    /** The first n deliveries settled, the others still held, everything else untouched. */
    ghost predicate SettledUpTo(items: Items, before: Items, chosen: seq<Key>, until: nat, sink: Sink, n: nat)
      requires settings.Valid()
    {
      var held := HeldOf(before, chosen, until);
      && items.Keys == before.Keys
      && (forall i :: 0 <= i < |chosen| ==>
            && chosen[i].id in items
            && items[chosen[i].id] == if i < n then AfterReport(settings, workerID, held[i], sink(i)) else held[i])
      && (forall id :: id in items && id !in Outbox.Ids(chosen) ==> items[id] == before[id])
    }

    method Deliver(outbox: MemoryOutbox, now: nat, cancelled: bool, sink: Sink)
      returns (result: WorkerResult, outcome: Outcome)
      requires settings.Valid() && outbox.Valid()
      modifies outbox
      ensures outbox.Valid()
      ensures cancelled || !ClaimGranted(caller, Request(now)) ==>
                && result == NOTHING && outcome == (if cancelled then Interrupted else Troubled)
                && outbox.items == old(outbox.items)
      ensures !cancelled && ClaimGranted(caller, Request(now)) ==>
                var chosen := Chosen(old(outbox.items), caller.tenantID, Request(now));
                var tried := Tried(sink, |chosen|);
                && SettledUpTo(outbox.items, old(outbox.items), chosen, now + leaseDuration, sink, tried)
                && result == Tally(settings, HeldOf(old(outbox.items), chosen, now + leaseDuration), sink, tried)
                && EndsAs(outcome, sink, |chosen|)
    {
      hide EndsAs, Tried, Tally, AfterReport, SettledUpTo, HeldOf, ValidWorkerName, Chosen, HoldAll;
      if cancelled { return NOTHING, Interrupted; }
      ghost var before := outbox.items;
      var claimed := outbox.Claim(caller, Request(now));
      if claimed.Err? { return NOTHING, Troubled; }
      ghost var chosen := Chosen(before, caller.tenantID, Request(now));
      ChosenAreClaimable(before, caller.tenantID, Request(now));
      assert Batch(before, chosen, now);
      ClaimedAreHeld(before, chosen, now, sink, claimed.value);
      result, outcome := DeliverEach(outbox, before, chosen, now, sink, claimed.value);
    }

    method DeliverEach(outbox: MemoryOutbox, ghost before: Items, ghost chosen: seq<Key>, ghost now: nat,
                       sink: Sink, deliveries: seq<Delivery>) returns (result: WorkerResult, outcome: Outcome)
      requires settings.Valid() && outbox.Valid() && leaseDuration >= 0 && Batch(before, chosen, now)
      requires deliveries == HeldOf(before, chosen, now + leaseDuration)
      requires SettledUpTo(outbox.items, before, chosen, now + leaseDuration, sink, 0)
      modifies outbox
      ensures outbox.Valid()
      ensures SettledUpTo(outbox.items, before, chosen, now + leaseDuration, sink, Tried(sink, |chosen|))
      ensures |deliveries| == |chosen| && result == Tally(settings, deliveries, sink, Tried(sink, |chosen|))
      ensures EndsAs(outcome, sink, |chosen|)
    {
      hide *;
      result := WorkerResult(|deliveries|, 0, 0, 0);
      outcome := Clean;
      TallyStart(before, chosen, now + leaseDuration, deliveries, sink);
      NothingTried(sink);
      for i := 0 to |deliveries|
        invariant outbox.Valid() && Tried(sink, i) == i
        invariant SettledUpTo(outbox.items, before, chosen, now + leaseDuration, sink, i)
        invariant result == Tally(settings, deliveries, sink, i)
        invariant EndsAs(outcome, sink, i)
      {
        if sink(i).stopped {
          TriedStops(sink, i, |deliveries|);
          return result, Interrupted;
        }
        OneMoreTried(sink, i, outcome);
        result, outcome := DeliverOne(outbox, before, chosen, now, sink, i, deliveries, result, outcome);
      }
    }

    method DeliverOne(outbox: MemoryOutbox, ghost before: Items, ghost chosen: seq<Key>, ghost now: nat, sink: Sink,
                      i: nat, deliveries: seq<Delivery>, soFar: WorkerResult, outcomeSoFar: Outcome)
        returns (result: WorkerResult, outcome: Outcome)
      requires settings.Valid() && outbox.Valid() && leaseDuration >= 0 && Batch(before, chosen, now)
      requires deliveries == HeldOf(before, chosen, now + leaseDuration) && i < |deliveries| == |chosen|
      requires SettledUpTo(outbox.items, before, chosen, now + leaseDuration, sink, i)
      requires soFar == Tally(settings, deliveries, sink, i)
      modifies outbox
      ensures outbox.Valid() && SettledUpTo(outbox.items, before, chosen, now + leaseDuration, sink, i + 1)
      ensures result == Tally(settings, deliveries, sink, i + 1)
      ensures outcome == Join(outcomeSoFar, sink(i))
    {
      hide *;
      result, outcome := soFar, outcomeSoFar;
      var a := sink(i);
      var ok := Report(outbox, before, chosen, now, sink, i, deliveries[i]);
      TallyOneMore(deliveries, sink, i);
      JoinIs(outcome, a);
      if !a.delivered {
        result := result.(failed := result.failed + 1);
        if LastTry(settings, deliveries[i]) { result := result.(deadLettered := result.deadLettered + 1); }
        outcome := if a.cut || outcome.Interrupted? then Interrupted else Troubled;
      } else if !ok {
        outcome := if a.cut || outcome.Interrupted? then Interrupted else Troubled;
      } else {
        result := result.(delivered := result.delivered + 1);
      }
    }

    lemma JoinIs(soFar: Outcome, a: Answer)
      ensures Taken(a) <==> a.delivered && a.recordedAt != 0 && !a.cut
      ensures Join(soFar, a) == if a.cut || soFar.Interrupted? then Interrupted else if Taken(a) then soFar else Troubled
    {}

    /** What a granted claim hands out: distinct claimable items of the caller's tenant. */
    ghost predicate Batch(before: Items, chosen: seq<Key>, now: nat) {
      && ClaimGranted(caller, Request(now))
      && (forall k :: k in chosen ==> k.id in before && before[k.id].Claimable(caller.tenantID, now))
      && (forall i, j :: 0 <= i < j < |chosen| ==> chosen[i].id != chosen[j].id)
    }

    lemma ClaimedAreHeld(before: Items, chosen: seq<Key>, now: nat, sink: Sink, deliveries: seq<Delivery>)
      requires settings.Valid() && leaseDuration >= 0 && Batch(before, chosen, now)
      requires |deliveries| == |chosen|
      requires var items := HoldAll(before, chosen, workerID, now + leaseDuration);
               forall i :: 0 <= i < |chosen| ==> chosen[i].id in items && deliveries[i] == items[chosen[i].id]
      ensures SettledUpTo(HoldAll(before, chosen, workerID, now + leaseDuration), before, chosen, now + leaseDuration, sink, 0)
      ensures deliveries == HeldOf(before, chosen, now + leaseDuration)
    {
      HoldReaches(before, chosen, workerID, now + leaseDuration);
      hide HoldAll, Held;
      assert forall i :: 0 <= i < |chosen| ==> chosen[i] in chosen;
    }

    /** Reports one delivery to the outbox, which takes or refuses the report. */
    method Report(outbox: MemoryOutbox, ghost before: Items, ghost chosen: seq<Key>, ghost now: nat,
                  sink: Sink, i: nat, delivery: Delivery) returns (ok: bool)
      requires settings.Valid() && outbox.Valid() && leaseDuration >= 0 && Batch(before, chosen, now)
      requires SettledUpTo(outbox.items, before, chosen, now + leaseDuration, sink, i)
      requires i < |chosen| && delivery == HeldOf(before, chosen, now + leaseDuration)[i]
      modifies outbox
      ensures outbox.Valid() && SettledUpTo(outbox.items, before, chosen, now + leaseDuration, sink, i + 1)
      ensures sink(i).delivered ==> (ok <==> Taken(sink(i)))
    {
      var a := sink(i);
      hide *;
      ValidMeansItemsOk(outbox);
      ReportIsTaken(outbox.items, before, chosen, now, sink, i);
      FailureIs(delivery, a);
      JoinIs(Clean, a);
      var r: Result<()>;
      if !a.delivered {
        var attempt := delivery.attempts + 1;
        var dead := attempt >= settings.maxAttempts;
        var next := 0;
        if !dead {
          var delay := RetryDelay(attempt);
          next := a.plannedAt + delay;
        }
        r := outbox.Fail(caller, delivery.event.id, DeliveryFailure(workerID, a.recordedAt, a.error, next, dead));
      } else if a.cut {
        return false;
      } else {
        r := outbox.Acknowledge(caller, delivery.event.id, workerID, a.recordedAt);
      }
      ok := r.Ok?;
    }

    method RetryDelay(attempt: int) returns (delay: nat)
      requires settings.Valid()
      ensures delay == Delay(settings.base, settings.ceiling, attempt)
    {
      delay := ComputeBackoff(settings.base, settings.ceiling, attempt);
    }

    /** The outbox does with the report of a claimed delivery what is said of it, and nothing to the others. */
    lemma ReportIsTaken(items: Items, before: Items, chosen: seq<Key>, now: nat, sink: Sink, i: nat)
      requires settings.Valid() && leaseDuration >= 0 && Batch(before, chosen, now)
      requires ItemsOk(items) && i < |chosen| && SettledUpTo(items, before, chosen, now + leaseDuration, sink, i)
      ensures var d := HeldOf(before, chosen, now + leaseDuration)[i];
              var f := FailureFor(settings, workerID, d, sink(i));
              var failed := FailStep(items, caller, d.event.id, f).0;
              var (acked, r) := AcknowledgeStep(items, caller, d.event.id, workerID, sink(i).recordedAt);
              && (!sink(i).delivered ==> SettledUpTo(failed, before, chosen, now + leaseDuration, sink, i + 1))
              && (sink(i).delivered ==>
                    SettledUpTo(if sink(i).cut then items else acked, before, chosen, now + leaseDuration, sink, i + 1))
              && (sink(i).delivered ==> (r.Ok? <==> sink(i).recordedAt != 0))
    {
      hide *;
      var until, a := now + leaseDuration, sink(i);
      ClaimedIsOwn(items, before, chosen, now, sink, i);
      var d := HeldOf(before, chosen, until)[i];
      SettledOneMore(items, before, chosen, until, sink, i);
      ReportedAs(d, a);
      assert items[chosen[i].id := d] == items;
      if a.delivered {
        AcknowledgeOf(items, d, a.recordedAt);
      } else {
        FailOf(items, d, FailureFor(settings, workerID, d, a));
      }
    }

    lemma ValidMeansItemsOk(outbox: MemoryOutbox)
      requires outbox.Valid()
      ensures ItemsOk(outbox.items)
    {}

    lemma ReportedAs(d: Delivery, a: Answer)
      requires settings.Valid()
      ensures var f := FailureFor(settings, workerID, d, a);
              && f.workerID == workerID
              && AfterReport(settings, workerID, d, a) ==
                 if a.delivered then (if a.recordedAt != 0 && !a.cut then Delivered(d, a.recordedAt) else d)
                 else if ValidFailure(f) then FailedDelivery(d, f) else d
    {
      hide Delivered, FailedDelivery, ValidFailure, Delay;
    }

    lemma FailureIs(d: Delivery, a: Answer)
      requires settings.Valid()
      ensures FailureFor(settings, workerID, d, a) ==
              DeliveryFailure(workerID, a.recordedAt, a.error,
                if d.attempts + 1 >= settings.maxAttempts then 0
                else a.plannedAt + Delay(settings.base, settings.ceiling, d.attempts + 1),
                d.attempts + 1 >= settings.maxAttempts)
    {
      hide Delay;
    }

    lemma ClaimedIsOwn(items: Items, before: Items, chosen: seq<Key>, now: nat, sink: Sink, i: nat)
      requires settings.Valid() && leaseDuration >= 0 && Batch(before, chosen, now)
      requires ItemsOk(items) && i < |chosen| && SettledUpTo(items, before, chosen, now + leaseDuration, sink, i)
      ensures |HeldOf(before, chosen, now + leaseDuration)| == |chosen|
      ensures forall j, k :: 0 <= j < k < |chosen| ==> chosen[j].id != chosen[k].id
      ensures var d := HeldOf(before, chosen, now + leaseDuration)[i];
              && chosen[i].id in items && items[chosen[i].id] == d && d.event.id == chosen[i].id
              && d.event.tenantID == caller.tenantID && d.leaseOwner == workerID
              && caller.Authenticated() && !Blank(workerID)
    {
      NamedAndKnown(now);
      hide ValidLeaseRequest, AfterReport;
      assert chosen[i] in chosen;
    }

    lemma FailOf(items: Items, d: Delivery, f: DeliveryFailure)
      requires d.event.id in items && items[d.event.id] == d && d.event.tenantID == caller.tenantID
      requires d.leaseOwner == f.workerID && caller.Authenticated()
      ensures FailStep(items, caller, d.event.id, f).0 ==
              if ValidFailure(f) then items[d.event.id := FailedDelivery(d, f)] else items
    {
      hide FailedDelivery, ValidFailure;
    }

    lemma AcknowledgeOf(items: Items, d: Delivery, at: nat)
      requires d.event.id in items && items[d.event.id] == d && d.event.tenantID == caller.tenantID
      requires d.leaseOwner == workerID && caller.Authenticated() && !Blank(workerID)
      ensures var (after, r) := AcknowledgeStep(items, caller, d.event.id, workerID, at);
              && after == (if at != 0 then items[d.event.id := Delivered(d, at)] else items)
              && (r.Ok? <==> at != 0)
    {
      hide Delivered, Blank;
    }

    lemma NamedAndKnown(now: nat)
      requires ClaimGranted(caller, Request(now))
      ensures !Blank(workerID) && caller.Authenticated() && workerID != ""
    {
      EmptyIsBlank();
    }

    lemma SettledOneMore(items: Items, before: Items, chosen: seq<Key>, until: nat, sink: Sink, i: nat)
      requires settings.Valid() && i < |chosen| && SettledUpTo(items, before, chosen, until, sink, i)
      requires forall j, k :: 0 <= j < k < |chosen| ==> chosen[j].id != chosen[k].id
      ensures chosen[i].id in items
      ensures SettledUpTo(items[chosen[i].id := AfterReport(settings, workerID, HeldOf(before, chosen, until)[i], sink(i))],
                          before, chosen, until, sink, i + 1)
    {
      hide AfterReport;
      assert chosen[i] in chosen && chosen[i].id in Outbox.Ids(chosen);
    }

    lemma TallyStart(before: Items, chosen: seq<Key>, until: nat, deliveries: seq<Delivery>, sink: Sink)
      requires settings.Valid() && deliveries == HeldOf(before, chosen, until)
      ensures |deliveries| == |chosen| && Tally(settings, deliveries, sink, 0) == WorkerResult(|deliveries|, 0, 0, 0)
    {}

    lemma TallyOneMore(held: seq<Delivery>, sink: Sink, i: nat)
      requires i < |held|
      ensures var t, a := Tally(settings, held, sink, i), sink(i);
              Tally(settings, held, sink, i + 1) ==
              if a.delivered then (if Taken(a) then t.(delivered := t.delivered + 1) else t)
              else t.(failed := t.failed + 1, deadLettered := t.deadLettered + if LastTry(settings, held[i]) then 1 else 0)
    {}
  }

  // ---- How a poll ends ----

  lemma NothingTried(sink: Sink)
    ensures Tried(sink, 0) == 0 && EndsAs(Clean, sink, 0)
  {}

  lemma {:induction false} TriedStops(sink: Sink, i: nat, n: nat)
    requires i < n && Tried(sink, i) == i && sink(i).stopped
    ensures Tried(sink, n) == i && EndsAs(Interrupted, sink, n)
  {
    if i < n - 1 { TriedStops(sink, i, n - 1); }
  }

  lemma OneMoreTried(sink: Sink, i: nat, outcome: Outcome)
    requires Tried(sink, i) == i && !sink(i).stopped && EndsAs(outcome, sink, i)
    ensures Tried(sink, i + 1) == i + 1 && EndsAs(Join(outcome, sink(i)), sink, i + 1)
  {}

  // ---- Health over many polls ----

  function HealthAfter(h: Health, p: Poll): Health {
    match p.outcome
    case Clean => Health(true, 0, p.attemptedAt, p.finishedAt, p.result)
    case Troubled => Health(false, h.consecutiveFailures + 1, p.attemptedAt, h.lastSuccessAt, p.result)
    case Interrupted => h.(lastAttemptAt := p.attemptedAt, lastResult := p.result)
  }

  function HealthOver(polls: seq<Poll>): Health {
    if polls == [] then UNPROVEN else HealthAfter(HealthOver(polls[..|polls| - 1]), polls[|polls| - 1])
  }

  /** The polls that ran to their end. */
  function Finished(polls: seq<Poll>): seq<Poll> {
    if polls == [] then []
    else
      var front, last := Finished(polls[..|polls| - 1]), polls[|polls| - 1];
      if last.outcome.Interrupted? then front else front + [last]
  }

  /** The last `streak` of these polls are all those after the last clean one. */
  predicate TroubledSince(finished: seq<Poll>, streak: nat) {
    && streak <= |finished|
    && (forall i :: |finished| - streak <= i < |finished| ==> finished[i].outcome.Troubled?)
    && (streak < |finished| ==> finished[|finished| - 1 - streak].outcome.Clean?)
  }

  /**
   After any polls: the failure count is the number of troubled polls since the last clean one,
   the worker is ready exactly when its last finished poll was clean, and its last success is
   when the last clean poll ended. Interrupted polls count for none of it.
   */
  lemma {:induction false} HealthTellsLastPolls(polls: seq<Poll>)
    ensures var h, done := HealthOver(polls), Finished(polls);
            && TroubledSince(done, h.consecutiveFailures)
            && (h.ready <==> done != [] && done[|done| - 1].outcome.Clean?)
            && h.lastSuccessAt == (if h.consecutiveFailures == |done| then 0
                                   else done[|done| - 1 - h.consecutiveFailures].finishedAt)
            && (polls != [] ==> h.lastAttemptAt == polls[|polls| - 1].attemptedAt && h.lastResult == polls[|polls| - 1].result)
  {
    if polls != [] { HealthTellsLastPolls(polls[..|polls| - 1]); }
  }

  /**
   A sink that always answers with its own expired deadline: every poll counts as interrupted
   although the context never ends, and the failures never show in the worker's health.
   */
  lemma DeadlinesStayUnseen(before: seq<Poll>, polls: seq<Poll>, sink: Sink, sizes: seq<nat>)
    requires |sizes| == |polls| && forall i :: !sink(i).stopped && !sink(i).delivered && sink(i).cut
    requires forall k :: 0 <= k < |polls| ==> sizes[k] > 0 && EndsAs(polls[k].outcome, sink, sizes[k])
    ensures var h, h' := HealthOver(before), HealthOver(before + polls);
            h'.ready == h.ready && h'.consecutiveFailures == h.consecutiveFailures && h'.lastSuccessAt == h.lastSuccessAt
    ensures forall k :: 0 <= k < |polls| ==> Tried(sink, sizes[k]) == sizes[k]
  {
    hide HealthOver;
    forall k | 0 <= k < |polls|
      ensures Tried(sink, sizes[k]) == sizes[k] && polls[k].outcome.Interrupted?
    {
      AllTried(sink, sizes[k]);
      assert sink(0).cut;
    }
    InterruptedPollsStayUnseen(before, polls);
  }

  lemma {:induction false} InterruptedPollsStayUnseen(before: seq<Poll>, polls: seq<Poll>)
    requires forall k :: 0 <= k < |polls| ==> polls[k].outcome.Interrupted?
    ensures var h, h' := HealthOver(before), HealthOver(before + polls);
            h'.ready == h.ready && h'.consecutiveFailures == h.consecutiveFailures && h'.lastSuccessAt == h.lastSuccessAt
  {
    if polls == [] {
      assert before + polls == before;
    } else {
      var n := |polls| - 1;
      InterruptedPollsStayUnseen(before, polls[..n]);
      assert (before + polls)[..|before| + n] == before + polls[..n];
    }
  }

  lemma {:induction false} AllTried(sink: Sink, n: nat)
    requires forall i :: !sink(i).stopped
    ensures Tried(sink, n) == n
  {
    if n > 0 { AllTried(sink, n - 1); }
  }

  /** Clocks that do not run away, and no cancelled acknowledgement: a failure is recorded before the planned retry. */
  predicate Timely(s: Settings, seen: Delivery, a: Answer)
    requires s.Valid()
  {
    var planned := a.plannedAt + Delay(s.base, s.ceiling, seen.attempts + 1);
    a.recordedAt != 0 && if a.delivered then !a.cut else LastTry(s, seen) || a.recordedAt <= planned
  }

  lemma TimelyIsRecorded(s: Settings, worker: string, seen: Delivery, a: Answer)
    requires s.Valid() && !Blank(worker)
    ensures Recorded(s, worker, seen, a) <==> Timely(s, seen, a)
  {
    DelayIsMonotone(s.base, s.ceiling, seen.attempts + 1, seen.attempts + 1);
    hide Delay, Blank;
  }

  /**
   With timely clocks a run settles all it tried: each item loses its lease, is delivered or
   has one attempt more, and is dead exactly when that reaches the last; while it lives its next
   attempt is the delay for its attempts after the time it was planned. The counters agree.
   */
  lemma {:induction false} RunSettlesAll(s: Settings, worker: string, claimed: seq<Delivery>, sink: Sink, n: nat)
    requires s.Valid() && !Blank(worker) && n <= |claimed|
    requires forall i :: 0 <= i < n ==> Timely(s, claimed[i], sink(i)) && claimed[i].Pending()
    ensures var t := Tally(s, claimed, sink, n);
            t.claimed == |claimed| && t.delivered + t.failed == n && t.deadLettered <= t.failed
    ensures forall i :: 0 <= i < n ==>
              var before, after := claimed[i], AfterReport(s, worker, claimed[i], sink(i));
              && after.event == before.event && after.leaseOwner == "" && after.leaseUntil == 0
              && (after.deliveredAt != 0 <==> sink(i).delivered)
              && after.attempts == before.attempts + (if sink(i).delivered then 0 else 1)
              && (after.deadLetteredAt != 0 <==> !sink(i).delivered && after.attempts >= s.maxAttempts)
              && after.createdAt == before.createdAt
              && (sink(i).delivered ==> after.deliveredAt == sink(i).recordedAt)
              && (!sink(i).delivered ==> after.lastAttemptAt == sink(i).recordedAt)
              && (after.deadLetteredAt != 0 ==> after.deadLetteredAt == sink(i).recordedAt)
              && (!sink(i).delivered && after.deadLetteredAt == 0 ==>
                    after.nextAttemptAt == sink(i).plannedAt + Delay(s.base, s.ceiling, after.attempts))
  {
    if n > 0 {
      RunSettlesAll(s, worker, claimed, sink, n - 1);
      TimelyIsRecorded(s, worker, claimed[n - 1], sink(n - 1));
      hide Timely, Recorded, BoundedError, Delay, Blank;
    }
  }

  function Count(n: nat, holds: nat -> bool): nat {
    |set i: nat | i < n && holds(i)|
  }

  lemma CountOneMore(n: nat, holds: nat -> bool)
    ensures Count(n + 1, holds) == Count(n, holds) + if holds(n) then 1 else 0
  {
    var all, front := (set i: nat | i < n + 1 && holds(i)), (set i: nat | i < n && holds(i));
    assert all == if holds(n) then front + {n} else front;
  }

  /**
   * The counters say how many deliveries the sink and the outbox took, the sink refused,
   * and of these were tried for the last time.
   */
  lemma {:induction false} CountersCount(s: Settings, claimed: seq<Delivery>, sink: Sink, n: nat)
    requires n <= |claimed|
    ensures var t := Tally(s, claimed, sink, n);
            && t.claimed == |claimed|
            && t.delivered == Count(n, (i: nat) => sink(i).delivered && !sink(i).cut && sink(i).recordedAt != 0)
            && t.failed == Count(n, (i: nat) => !sink(i).delivered)
            && t.deadLettered ==
               Count(n, (i: nat) => i < |claimed| && !sink(i).delivered && claimed[i].attempts + 1 >= s.maxAttempts)
  {
    if n > 0 {
      CountersCount(s, claimed, sink, n - 1);
      CountOneMore(n - 1, (i: nat) => sink(i).delivered && !sink(i).cut && sink(i).recordedAt != 0);
      CountOneMore(n - 1, (i: nat) => !sink(i).delivered);
      CountOneMore(n - 1, (i: nat) => i < |claimed| && !sink(i).delivered && claimed[i].attempts + 1 >= s.maxAttempts);
      hide Count;
    }
  }

  /** The first retry of a delivery that worker w holds, planned at time 1 and reported one tick too late. */
  lemma LateReportIsRefused() returns (s: Settings, caller: Principal, d: Delivery, a: Answer)
    ensures s.Valid() && !a.delivered && d.leaseOwner == "w" && d.Pending()
    ensures a.recordedAt == a.plannedAt + Delay(s.base, s.ceiling, d.attempts + 1) + 1
    ensures caller.Authenticated() && d.event.tenantID == caller.tenantID && ItemsOk(map[d.event.id := d])
    ensures FailStep(map[d.event.id := d], caller, d.event.id, FailureFor(s, "w", d, a)) ==
            (map[d.event.id := d], Err(ConfigError))
  {
    s := Settings(3, MILLISECOND, MILLISECOND);
    caller := Principal("t", "a", []);
    d := Held(NewDelivery(Event("e", "k", 1, "t", ""), 1), "w", 9 * MILLISECOND);
    a := Answer(false, false, false, 1, 2 + MILLISECOND, "down");
    assert TrimSpace("t") == "t" && TrimSpace("a") == "a";
    assert Delay(s.base, s.ceiling, 1) == MILLISECOND;
  }
}
