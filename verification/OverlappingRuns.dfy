/**
 The outbox when nothing keeps a worker to one RunOnce at a time. Every RunOnce is known by
 the number of its claim, and any number of them may share a worker name, as two processes
 configured alike do. The main claim says exactly whose reports the outbox takes then.
 */
module OverlappingRuns {
  import opened Results
  import opened Text
  import opened Ordering
  import opened Checkpoint
  import opened Outbox
  import opened Backoff
  import opened Deliveries

  /** A RunOnce under way: its worker's name and the deliveries it has still to report. */
  datatype Course = Course(worker: string, left: seq<Entry>)

  datatype Scene = Scene(items: Items, courses: map<nat, Course>, latest: map<string, Holder>, nextTicket: nat)

  const START := Scene(map[], map[], map[], 0)

  datatype Move =
    | Enqueues(caller: Principal, event: Event, now: nat)
    | Claims(caller: Principal, request: LeaseRequest)
    | Reports(caller: Principal, ticket: nat, delivered: bool, backoffFrom: nat, at: nat, error: string)
    | Ends(ticket: nat)
    | Requeues(caller: Principal, id: string, at: nat)

  predicate CanMake(c: Scene, move: Move) {
    match move
    case Reports(_, ticket, _, _, _, _) => ticket in c.courses && c.courses[ticket].left != []
    case Ends(ticket) => ticket in c.courses
    case _ => true
  }

  /** The chosen items pass to a further RunOnce. */
  ghost function HandOver(c: Scene, chosen: seq<Key>, r: LeaseRequest): Scene
    requires forall k :: k in chosen ==> k.id in c.items
    requires r.duration >= 0
  {
    var until := r.now + r.duration;
    Scene(HoldAll(c.items, chosen, r.workerID, until),
          c.courses[c.nextTicket := Course(r.workerID, Entries(c.items, chosen, r.workerID, until, c.nextTicket))],
          Opened(c.latest, chosen, c.nextTicket, r.workerID), c.nextTicket + 1)
  }

  /** What the outbox makes of a report: the items and whether it took it. */
  function Reported(s: Settings, c: Scene, move: Move): (Items, Result<()>)
    requires s.Valid() && move.Reports? && CanMake(c, move)
  {
    var course := c.courses[move.ticket];
    var entry := course.left[0];
    if move.delivered then AcknowledgeStep(c.items, move.caller, entry.id, course.worker, move.at)
    else
      FailStep(c.items, move.caller, entry.id,
               FailureOf(s, course.worker, entry.delivery, move.backoffFrom, move.at, move.error))
  }

  function Advance(c: Scene, ticket: nat): Scene
    requires ticket in c.courses && c.courses[ticket].left != []
  {
    var course := c.courses[ticket];
    c.(courses := c.courses[ticket := course.(left := course.left[1..])])
  }

  ghost function Make(s: Settings, c: Scene, move: Move): Scene
    requires s.Valid() && CanMake(c, move)
  {
    match move
    case Enqueues(caller, e, now) => c.(items := EnqueueStep(c.items, caller, e, now).0)
    case Claims(caller, r) =>
      if !ClaimGranted(caller, r) then c
      else
        ChosenExist(c.items, caller.tenantID, r);
        HandOver(c, Chosen(c.items, caller.tenantID, r), r)
    case Reports(_, ticket, _, _, _, _) =>
      var (items, r) := Reported(s, c, move);
      if r.Ok? then Advance(c, ticket).(items := items, latest := Closed(c.latest, c.courses[ticket].left[0].id))
      else Advance(c, ticket)
    case Ends(ticket) => c.(courses := c.courses - {ticket})
    case Requeues(caller, id, at) => c.(items := RequeueStep(c.items, caller, id, at).0)
  }

  ghost predicate CanMakeAll(s: Settings, moves: seq<Move>)
    requires s.Valid()
    decreases |moves|, 0
  {
    moves != [] ==>
      var front := moves[..|moves| - 1];
      CanMakeAll(s, front) && CanMake(After(s, front), moves[|moves| - 1])
  }

  ghost function After(s: Settings, moves: seq<Move>): Scene
    requires s.Valid() && CanMakeAll(s, moves)
    decreases |moves|, 1
  {
    if moves == [] then START
    else Make(s, After(s, moves[..|moves| - 1]), moves[|moves| - 1])
  }

  // ---- What every reachable scene satisfies ----

  /** A lease on an item is the name of its latest claim's worker, and goes with the claim. */
  predicate LeaseOfLatest(c: Scene, id: string)
    requires id in c.items
  {
    && (c.items[id].leaseOwner != "" <==> id in c.latest && c.latest[id].open)
    && (id in c.latest ==> c.latest[id].ticket < c.nextTicket)
    && (id in c.latest && c.latest[id].open ==> c.latest[id].worker == c.items[id].leaseOwner)
    && (c.items[id].leaseOwner != "" ==> c.items[id].Pending())
  }

  /** An entry's item was claimed under the entry's number, and perhaps again since. */
  predicate Known(c: Scene, ticket: nat, worker: string, entry: Entry) {
    && entry.id in c.items && entry.id in c.latest && entry.ticket == ticket
    && entry.delivery.event == c.items[entry.id].event
    && ticket <= c.latest[entry.id].ticket
    && (ticket == c.latest[entry.id].ticket ==> c.latest[entry.id].worker == worker)
  }

  ghost predicate CourseOk(c: Scene, ticket: nat) {
    ticket in c.courses ==>
      && ticket < c.nextTicket && c.courses[ticket].worker != ""
      && forall i :: 0 <= i < |c.courses[ticket].left| ==>
           Known(c, ticket, c.courses[ticket].worker, c.courses[ticket].left[i])
  }

  ghost predicate Sound(c: Scene) {
    && ItemsOk(c.items) && c.latest.Keys <= c.items.Keys
    && (forall id :: id in c.items ==> LeaseOfLatest(c, id))
    && (forall ticket :: ticket in c.courses ==> CourseOk(c, ticket))
  }

  /** A change of items that leaves every lease and event as it was, or gives up the lease with its claim. */
  predicate Follows(c: Scene, c': Scene, id: string)
    requires id in c.items
  {
    && id in c'.items && c'.items[id].event == c.items[id].event
    && (id in c'.latest <==> id in c.latest)
    && (id in c.latest ==> c'.latest[id].ticket == c.latest[id].ticket && c'.latest[id].worker == c.latest[id].worker)
  }

  /** Moves that make no claim keep the entries of every RunOnce known. */
  lemma EntriesStayKnown(c: Scene, c': Scene)
    requires Sound(c) && c'.nextTicket == c.nextTicket
    requires forall id :: id in c.items ==> Follows(c, c', id)
    requires forall ticket :: ticket in c'.courses ==>
               && ticket in c.courses && c'.courses[ticket].worker == c.courses[ticket].worker
               && forall e :: e in c'.courses[ticket].left ==> e in c.courses[ticket].left
    ensures forall ticket :: ticket in c'.courses ==> CourseOk(c', ticket)
  {
    hide ItemsOk, LeaseOfLatest;
    forall ticket | ticket in c'.courses
      ensures CourseOk(c', ticket)
    {
      assert CourseOk(c, ticket);
      var worker, left := c.courses[ticket].worker, c'.courses[ticket].left;
      forall i | 0 <= i < |left|
        ensures Known(c', ticket, worker, left[i])
      {
        assert left[i] in left;
        assert Known(c, ticket, worker, left[i]);
      }
    }
  }

  lemma HandOverKeeps(c: Scene, caller: Principal, r: LeaseRequest)
    requires Sound(c) && ClaimGranted(caller, r)
    ensures forall k :: k in Chosen(c.items, caller.tenantID, r) ==> k.id in c.items
    ensures Sound(HandOver(c, Chosen(c.items, caller.tenantID, r), r))
  {
    ChosenAreClaimable(c.items, caller.tenantID, r);
    var chosen := Chosen(c.items, caller.tenantID, r);
    hide Chosen;
    NamedWorker(r);
    HoldKeepsItemsOk(c.items, chosen, r);
    var c' := HandOver(c, chosen, r);
    HandOverShape(c, chosen, r);
    hide HandOver, ItemsOk, ValidLeaseRequest, LeaseOfLatest, CourseOk, HoldAll, Ids;
    forall id | id in c'.items
      ensures LeaseOfLatest(c', id)
    {
      HandOverLease(c, caller, chosen, r, id);
    }
    forall ticket | ticket in c'.courses
      ensures CourseOk(c', ticket)
    {
      if ticket == c.nextTicket {
        NewCourse(c, chosen, r);
      } else {
        OldCourse(c, chosen, r, ticket);
      }
    }
  }

  lemma HandOverShape(c: Scene, chosen: seq<Key>, r: LeaseRequest)
    requires r.duration >= 0 && c.latest.Keys <= c.items.Keys
    requires forall k :: k in chosen ==> k.id in c.items
    ensures var c' := HandOver(c, chosen, r);
            && c'.items == HoldAll(c.items, chosen, r.workerID, r.now + r.duration)
            && c'.items.Keys == c.items.Keys && c'.latest.Keys <= c'.items.Keys
            && c'.courses.Keys == c.courses.Keys + {c.nextTicket}
  {}

  lemma HandOverLease(c: Scene, caller: Principal, chosen: seq<Key>, r: LeaseRequest, id: string)
    requires r.duration >= 0 && r.workerID != "" && id in c.items && LeaseOfLatest(c, id)
    requires forall k :: k in chosen ==> k.id in c.items && c.items[k.id].Claimable(caller.tenantID, r.now)
    ensures id in HandOver(c, chosen, r).items && LeaseOfLatest(HandOver(c, chosen, r), id)
  {}

  lemma NewCourse(c: Scene, chosen: seq<Key>, r: LeaseRequest)
    requires r.duration >= 0 && r.workerID != ""
    requires forall k :: k in chosen ==> k.id in c.items
    ensures CourseOk(HandOver(c, chosen, r), c.nextTicket)
  {
    HoldReaches(c.items, chosen, r.workerID, r.now + r.duration);
    var c' := HandOver(c, chosen, r);
    var left := c'.courses[c.nextTicket].left;
    forall i | 0 <= i < |left|
      ensures Known(c', c.nextTicket, r.workerID, left[i])
    {
      assert chosen[i] in chosen;
      assert chosen[i].id in Ids(chosen);
    }
  }

  lemma OldCourse(c: Scene, chosen: seq<Key>, r: LeaseRequest, ticket: nat)
    requires r.duration >= 0 && ticket in c.courses && ticket != c.nextTicket && CourseOk(c, ticket)
    requires forall k :: k in chosen ==> k.id in c.items
    ensures CourseOk(HandOver(c, chosen, r), ticket)
  {
    var c', left, worker := HandOver(c, chosen, r), c.courses[ticket].left, c.courses[ticket].worker;
    forall i | 0 <= i < |left|
      ensures Known(c', ticket, worker, left[i])
    {
      assert Known(c, ticket, worker, left[i]);
    }
  }

  lemma ReportFollows(s: Settings, c: Scene, move: Move, x: string)
    requires s.Valid() && Sound(c) && move.Reports? && CanMake(c, move) && x in c.items
    ensures Follows(c, Make(s, c, move), x) && LeaseOfLatest(Make(s, c, move), x)
  {
    hide Blank, BoundedError, ValidFailure, FailureOf, Principal.Authenticated, ItemsOk, CourseOk;
    assert LeaseOfLatest(c, x);
    LeftIsKnown(c, move.ticket, 0);
  }

  lemma LeftIsKnown(c: Scene, ticket: nat, i: nat)
    requires Sound(c) && ticket in c.courses && i < |c.courses[ticket].left|
    ensures Known(c, ticket, c.courses[ticket].worker, c.courses[ticket].left[i])
  {
    hide ItemsOk, LeaseOfLatest;
    assert CourseOk(c, ticket);
  }

  lemma ReportShape(s: Settings, c: Scene, move: Move)
    requires s.Valid() && Sound(c) && move.Reports? && CanMake(c, move)
    ensures var c' := Make(s, c, move);
            && ItemsOk(c'.items) && c'.items.Keys == c.items.Keys && c'.latest.Keys == c.latest.Keys
            && c'.nextTicket == c.nextTicket && c'.courses == Advance(c, move.ticket).courses
  {
    hide Blank, BoundedError, ValidFailure, FailureOf, Principal.Authenticated, CourseOk, LeaseOfLatest;
    LeftIsKnown(c, move.ticket, 0);
  }

  lemma ReportKeeps(s: Settings, c: Scene, move: Move)
    requires s.Valid() && Sound(c) && move.Reports? && CanMake(c, move)
    ensures Sound(Make(s, c, move))
  {
    hide Make, Follows, LeaseOfLatest, CourseOk, ItemsOk;
    var c' := Make(s, c, move);
    ReportShape(s, c, move);
    forall x | x in c.items
      ensures LeaseOfLatest(c', x) && Follows(c, c', x)
    {
      ReportFollows(s, c, move, x);
    }
    EntriesStayKnown(c, c');
  }

  lemma EnqueuesKeeps(s: Settings, c: Scene, caller: Principal, e: Event, now: nat)
    requires s.Valid() && Sound(c)
    ensures Sound(Make(s, c, Enqueues(caller, e, now)))
  {
    hide Blank, CourseOk;
    var c' := Make(s, c, Enqueues(caller, e, now));
    forall x | x in c'.items
      ensures LeaseOfLatest(c', x)
    {
      if x in c.items { assert LeaseOfLatest(c, x); }
    }
    EntriesStayKnown(c, c');
  }

  lemma RequeuesKeeps(s: Settings, c: Scene, caller: Principal, id: string, at: nat)
    requires s.Valid() && Sound(c)
    ensures Sound(Make(s, c, Requeues(caller, id, at)))
  {
    hide Blank, CourseOk, Principal.Authenticated;
    var c' := Make(s, c, Requeues(caller, id, at));
    forall x | x in c'.items
      ensures LeaseOfLatest(c', x)
    {
      assert LeaseOfLatest(c, x);
    }
    EntriesStayKnown(c, c');
  }

  lemma EndsKeeps(s: Settings, c: Scene, ticket: nat)
    requires s.Valid() && Sound(c) && CanMake(c, Ends(ticket))
    ensures Sound(Make(s, c, Ends(ticket)))
  {
    hide CourseOk, ItemsOk;
    var c' := Make(s, c, Ends(ticket));
    forall x | x in c'.items
      ensures LeaseOfLatest(c', x)
    {
      assert LeaseOfLatest(c, x);
    }
    EntriesStayKnown(c, c');
  }

  lemma {:induction false} EveryMoveKeeps(s: Settings, moves: seq<Move>)
    requires s.Valid() && CanMakeAll(s, moves)
    ensures Sound(After(s, moves))
  {
    hide Sound;
    if moves == [] {
      StartIsSound();
    } else {
      var front, move := moves[..|moves| - 1], moves[|moves| - 1];
      EveryMoveKeeps(s, front);
      var c := After(s, front);
      match move
      case Claims(caller, r) => if ClaimGranted(caller, r) { HandOverKeeps(c, caller, r); }
      case Reports(_, _, _, _, _, _) => ReportKeeps(s, c, move);
      case Enqueues(caller, e, now) => EnqueuesKeeps(s, c, caller, e, now);
      case Requeues(caller, id, at) => RequeuesKeeps(s, c, caller, id, at);
      case Ends(ticket) => EndsKeeps(s, c, ticket);
    }
  }

  lemma StartIsSound()
    ensures Sound(START)
  {}

  // ---- Whose reports are taken ----

  /** The item was claimed again since. */
  predicate Superseded(c: Scene, entry: Entry) {
    entry.id in c.latest && entry.ticket < c.latest[entry.id].ticket
  }

  /** The item's latest claim is not settled and was made under this name. */
  predicate HeldUnder(c: Scene, worker: string, id: string) {
    id in c.latest && c.latest[id].open && c.latest[id].worker == worker
  }

  /**
   In every interleaving of any number of runs: a run's report of an entry is taken exactly when
   the item's latest claim is open and was made under the run's name. So the report of an entry
   that was not claimed again is taken until the claim is settled, and the report of a superseded
   one is taken exactly when the claim that superseded it is open under the same name.
   */
  lemma ReportIsTakenIff(s: Settings, moves: seq<Move>, ticket: nat, i: nat, caller: Principal, at: nat, f: DeliveryFailure)
    requires s.Valid() && CanMakeAll(s, moves)
    requires var c := After(s, moves);
             && ticket in c.courses && i < |c.courses[ticket].left|
             && f.workerID == c.courses[ticket].worker
             && c.courses[ticket].left[i].delivery.event.tenantID == caller.tenantID
    requires ValidFailure(f) && at != 0 && caller.Authenticated()
    ensures var c := After(s, moves);
            var worker, entry := c.courses[ticket].worker, c.courses[ticket].left[i];
            var acknowledged := AcknowledgeStep(c.items, caller, entry.id, worker, at).1.Ok?;
            var failed := FailStep(c.items, caller, entry.id, f).1.Ok?;
            && (acknowledged <==> HeldUnder(c, worker, entry.id))
            && (failed <==> HeldUnder(c, worker, entry.id))
            && entry.id in c.latest
            && (!Superseded(c, entry) ==> (HeldUnder(c, worker, entry.id) <==> c.latest[entry.id].open))
  {
    EveryMoveKeeps(s, moves);
    var c := After(s, moves);
    hide CanMakeAll, After, ItemsOk;
    LeftIsKnown(c, ticket, i);
    assert LeaseOfLatest(c, c.courses[ticket].left[i].id);
  }

  lemma SoleItemIsChosen(items: Items, tenantID: string, r: LeaseRequest, id: string)
    requires 1 <= r.limit && items.Keys == {id} && items[id].Claimable(tenantID, r.now)
    ensures Chosen(items, tenantID, r) == [Key(items[id].createdAt, id)]
  {
    var k := Key(items[id].createdAt, id);
    var chosen := Chosen(items, tenantID, r);
    assert ClaimableKeys(items, tenantID, r.now) == {k};
    OldestIsFair({k}, r.limit);
    ChosenAreClaimable(items, tenantID, r);
    hide Delivery.Claimable;
    assert |chosen| == 1 && chosen[0] in chosen;
  }

  lemma OneMoreMove(s: Settings, moves: seq<Move>, move: Move)
    requires s.Valid() && CanMakeAll(s, moves) && CanMake(After(s, moves), move)
    ensures CanMakeAll(s, moves + [move]) && After(s, moves + [move]) == Make(s, After(s, moves), move)
  {
    assert (moves + [move])[..|moves + [move]| - 1] == moves;
  }

  /** A claim of the only item, when that can be claimed. */
  lemma SoleItemPasses(s: Settings, c: Scene, caller: Principal, r: LeaseRequest, id: string)
    requires s.Valid() && ClaimGranted(caller, r)
    requires c.items.Keys == {id} && c.latest.Keys <= {id} && c.items[id].Claimable(caller.tenantID, r.now)
    ensures var held := Held(c.items[id], r.workerID, r.now + r.duration);
            Make(s, c, Claims(caller, r)) ==
            Scene(map[id := held],
                  c.courses[c.nextTicket := Course(r.workerID, [Entry(id, held, c.nextTicket)])],
                  map[id := Holder(c.nextTicket, r.workerID, true)], c.nextTicket + 1)
  {
    SoleItemIsChosen(c.items, caller.tenantID, r, id);
    hide Delivery.Claimable, ValidLeaseRequest, Principal.Authenticated, Chosen;
    var chosen := [Key(c.items[id].createdAt, id)];
    var until := r.now + r.duration;
    assert Ids(chosen) == {id};
    assert HoldAll(c.items, chosen, r.workerID, until) == map[id := Held(c.items[id], r.workerID, until)];
    assert Opened(c.latest, chosen, c.nextTicket, r.workerID) == map[id := Holder(c.nextTicket, r.workerID, true)];
    assert Entries(c.items, chosen, r.workerID, until, c.nextTicket) ==
           [Entry(id, Held(c.items[id], r.workerID, until), c.nextTicket)];
  }

  const DEFAULTS := Settings(3, 1_000_000, 1_000_000)
  const SERVICE := Principal("t", "a", [])
  const EVENT := Event("e", "k", 1, "t", "")
  const FIRST := LeaseRequest("w", 1, Outbox.SECOND, 1)
  const AGAIN := LeaseRequest("w", 1, Outbox.SECOND, 2 + Outbox.SECOND)
  const OVERLAP := [Enqueues(SERVICE, EVENT, 1), Claims(SERVICE, FIRST), Claims(SERVICE, AGAIN)]

  function HeldIn(r: LeaseRequest): Delivery
    requires r.duration >= 0
  {
    Held(NewDelivery(EVENT, 1), r.workerID, r.now + r.duration)
  }

  lemma OverlapIsReached()
    ensures DEFAULTS.Valid() && CanMakeAll(DEFAULTS, OVERLAP)
    ensures After(DEFAULTS, OVERLAP) ==
            Scene(map["e" := HeldIn(AGAIN)],
                  map[0 := Course("w", [Entry("e", HeldIn(FIRST), 0)]), 1 := Course("w", [Entry("e", HeldIn(AGAIN), 1)])],
                  map["e" := Holder(1, "w", true)], 2)
  {
    NamesAreNotBlank();
    var claimed := Scene(map["e" := HeldIn(FIRST)], map[0 := Course("w", [Entry("e", HeldIn(FIRST), 0)])],
                         map["e" := Holder(0, "w", true)], 1);
    hide Blank, CanMakeAll, After;
    var filed := Scene(map["e" := NewDelivery(EVENT, 1)], map[], map[], 0);
    assert Make(DEFAULTS, START, OVERLAP[0]) == filed;
    SoleItemPasses(DEFAULTS, filed, SERVICE, FIRST, "e");
    SoleItemPasses(DEFAULTS, claimed, SERVICE, AGAIN, "e");
    ThreeMoves(DEFAULTS, OVERLAP, filed, claimed);
  }

  lemma NamesAreNotBlank()
    ensures !Blank("e") && !Blank("k") && !Blank("t") && !Blank("a") && !Blank("w")
  {}

  lemma ThreeMoves(s: Settings, moves: seq<Move>, c1: Scene, c2: Scene)
    requires s.Valid() && |moves| == 3 && forall i :: 0 <= i < 3 ==> moves[i].Enqueues? || moves[i].Claims?
    requires Make(s, START, moves[0]) == c1 && Make(s, c1, moves[1]) == c2
    ensures CanMakeAll(s, moves) && After(s, moves) == Make(s, c2, moves[2])
  {
    hide Make;
    assert CanMakeAll(s, []) && After(s, []) == START;
    OneMoreMove(s, [], moves[0]);
    OneMoreMove(s, [moves[0]], moves[1]);
    OneMoreMove(s, [moves[0], moves[1]], moves[2]);
    assert moves == [moves[0], moves[1]] + [moves[2]];
    assert [moves[0], moves[1]] == [moves[0]] + [moves[1]];
    assert [moves[0]] == [] + [moves[0]];
  }

  /**
   Worker w claims an event, lets its lease lapse and claims it again in a second RunOnce. The
   first RunOnce then reports a failure: it is taken, and the second one's delivery is refused.
   */
  lemma TwoRunsUnderOneNameBreakTheFence() returns (late: Move, next: Move)
    ensures FIRST.workerID == AGAIN.workerID && FIRST.now + FIRST.duration <= AGAIN.now
    ensures DEFAULTS.Valid() && CanMakeAll(DEFAULTS, OVERLAP)
    ensures var c := After(DEFAULTS, OVERLAP);
            && late.Reports? && late.ticket == 0 && !late.delivered && CanMake(c, late)
            && Superseded(c, c.courses[0].left[0]) && Reported(DEFAULTS, c, late).1.Ok?
            && next.Reports? && next.ticket == 1 && next.delivered && CanMake(Make(DEFAULTS, c, late), next)
            && CanMake(c, next) && Reported(DEFAULTS, c, next).1.Ok?
            && Reported(DEFAULTS, Make(DEFAULTS, c, late), next).1 == Err(ConflictError)
  {
    late := Reports(SERVICE, 0, false, 3 + Outbox.SECOND, 3 + Outbox.SECOND, "down");
    next := Reports(SERVICE, 1, true, 4 + Outbox.SECOND, 4 + Outbox.SECOND, "");
    OverlapIsReached();
    NamesAreNotBlank();
    hide Blank, CanMakeAll, After, BoundedError, NewDelivery;
    DelayIsMonotone(1_000_000, 1_000_000, 1, 1);
  }

  /** Here too each move is an operation of the outbox. */
  lemma MovesAreOperations(s: Settings, moves: seq<Move>, move: Move)
    requires s.Valid() && CanMakeAll(s, moves) && CanMake(After(s, moves), move)
    ensures CanMakeAll(s, moves + [move])
    ensures var c, items := After(s, moves), After(s, moves + [move]).items;
            && (move.Enqueues? ==> items == EnqueueStep(c.items, move.caller, move.event, move.now).0)
            && (move.Claims? ==> items == ClaimStep(c.items, move.caller, move.request))
            && (move.Reports? ==> items == Reported(s, c, move).0)
            && (move.Ends? ==> items == c.items)
            && (move.Requeues? ==> items == RequeueStep(c.items, move.caller, move.id, move.at).0)
  {
    hide HoldAll, Chosen, ClaimGranted, EnqueueStep, RequeueStep, Entries, Opened;
    assert (moves + [move])[..|moves|] == moves;
  }
}
