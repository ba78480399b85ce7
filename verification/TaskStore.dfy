/**
 The in-memory session store's task operations. An update works on a copy of the session's
 tasks and commits it at the end, so a refused update changes nothing.
 */
module TaskStore {
  import opened Results
  import opened Checkpoint
  import opened Ordering
  import opened TaskGraph
  import T = TaskEdges

  type Tasks = T.Tasks
  type Task = T.Task
  type Pair = T.Pair

  datatype NewTask = NewTask(subject: string, description: string, activeForm: string, metadata: map<string, string>)

  datatype TaskPatch = TaskPatch(
    subject: Option<string>, description: Option<string>, activeForm: Option<string>,
    status: Option<T.TaskStatus>, owner: Option<string>,
    addBlocks: seq<string>, addBlockedBy: seq<string>, removeBlocks: seq<string>, removeBlockedBy: seq<string>,
    metadata: map<string, Option<string>>, delete: bool)

  datatype Outcome = Missing | Refused | Updated(task: Task)

  // ---- Identifiers ----

  function Itoa(n: nat): string {
    if n < 10 then [(48 + n) as char] else Itoa(n / 10) + [(48 + n % 10) as char]
  }

  function Atoi(s: string): int {
    if s == "" then 0 else 10 * Atoi(s[..|s| - 1]) + (s[|s| - 1] as int - 48)
  }

  lemma {:induction false} AtoiItoa(n: nat)
    ensures Itoa(n) != "" && Atoi(Itoa(n)) == n
  {
    if n >= 10 {
      AtoiItoa(n / 10);
      var s := Itoa(n);
      assert s[..|s| - 1] == Itoa(n / 10);
    } else {
      assert Itoa(n)[..0] == "";
    }
  }

  method UniqueIDs(ids: seq<string>) returns (out: seq<string>)
    ensures out == Unique(ids)
  {
    var seen: set<string> := {};
    out := [];
    for i := 0 to |ids|
      invariant out == Unique(ids[..i])
      invariant seen == set x | x in ids[..i]
    {
      assert ids[..i + 1] == ids[..i] + [ids[i]];
      if ids[i] !in seen {
        seen := seen + {ids[i]};
        out := out + [ids[i]];
      }
    }
    assert ids[..|ids|] == ids;
  }

  /** The identifiers in order of first mention. */
  function Unique(ids: seq<string>): seq<string> {
    if ids == [] then []
    else
      var front, last := ids[..|ids| - 1], ids[|ids| - 1];
      if last in front then Unique(front) else Unique(front) + [last]
  }

  /** Where an id is first mentioned. */
  function FirstAt(ids: seq<string>, x: string): (k: nat)
    requires x in ids
    ensures k < |ids| && ids[k] == x && forall m :: 0 <= m < k ==> ids[m] != x
  {
    if ids[0] == x then 0 else 1 + FirstAt(ids[1..], x)
  }

  lemma FirstAtIsUnique(ids: seq<string>, x: string, k: nat)
    requires k < |ids| && ids[k] == x && forall m :: 0 <= m < k ==> ids[m] != x
    ensures FirstAt(ids, x) == k
  {}

  lemma FirstAtWithOneMore(front: seq<string>, last: string, x: string)
    requires x in front + [last]
    ensures FirstAt(front + [last], x) == if x in front then FirstAt(front, x) else |front|
  {
    var ids := front + [last];
    var k := if x in front then FirstAt(front, x) else |front|;
    forall m | 0 <= m < k
      ensures ids[m] != x
    {
      assert ids[m] == front[m] && front[m] in front;
    }
    FirstAtIsUnique(ids, x, k);
  }

  /** These ids are mentioned among the others, each for the first time later than the one before. */
  ghost predicate ByFirstMention(ids: seq<string>, kept: seq<string>) {
    && (forall i :: 0 <= i < |kept| ==> kept[i] in ids)
    && (forall i, j :: 0 <= i < j < |kept| ==> FirstAt(ids, kept[i]) < FirstAt(ids, kept[j]))
  }

  lemma OneMoreMention(front: seq<string>, last: string, kept: seq<string>)
    requires ByFirstMention(front, kept)
    ensures ByFirstMention(front + [last], kept)
    ensures last !in front ==> ByFirstMention(front + [last], kept + [last])
  {
    hide FirstAt;
    var ids := front + [last];
    forall i | 0 <= i < |kept|
      ensures kept[i] in ids && FirstAt(ids, kept[i]) == FirstAt(front, kept[i]) < |front|
    {
      FirstAtWithOneMore(front, last, kept[i]);
    }
    assert last in ids;
    FirstAtWithOneMore(front, last, last);
  }

  /** No id is kept twice, and ids are kept in the order in which they were first mentioned. */
  lemma {:induction false} UniqueKeepsFirstMentions(ids: seq<string>)
    ensures forall x :: x in Unique(ids) <==> x in ids
    ensures ByFirstMention(ids, Unique(ids))
    ensures forall i, j :: 0 <= i < j < |Unique(ids)| ==> Unique(ids)[i] != Unique(ids)[j]
  {
    hide FirstAt;
    UniqueIsExact(ids);
    if ids != [] {
      var front, last := ids[..|ids| - 1], ids[|ids| - 1];
      UniqueKeepsFirstMentions(front);
      OneMoreMention(front, last, Unique(front));
      assert ids == front + [last];
    }
  }

  lemma {:induction false} UniqueIsExact(ids: seq<string>)
    ensures forall x :: x in Unique(ids) <==> x in ids
  {
    if ids != [] {
      UniqueIsExact(ids[..|ids| - 1]);
      assert ids == ids[..|ids| - 1] + [ids[|ids| - 1]];
    }
  }

  // ---- What an update does ----

  function PatchedMetadata(old_: map<string, string>, patch: map<string, Option<string>>): map<string, string> {
    map k | k in old_.Keys + patch.Keys && (k in patch ==> patch[k].Some?) ::
      if k in patch then patch[k].value else old_[k]
  }

  /** The task with its patched fields, before its edges are looked at. */
  function WithFields(t: Task, p: TaskPatch): Task {
    t.(subject := if p.subject.Some? then p.subject.value else t.subject,
       description := if p.description.Some? then p.description.value else t.description,
       activeForm := if p.activeForm.Some? then p.activeForm.value else t.activeForm,
       status := if p.delete then T.Deleted else if p.status.Some? then p.status.value else t.status,
       owner := if p.owner.Some? then p.owner.value else t.owner,
       metadata := PatchedMetadata(t.metadata, p.metadata))
  }

  function From(t: string, ids: seq<string>): seq<Pair> {
    seq(|ids|, i requires 0 <= i < |ids| => (t, ids[i]))
  }

  function To(t: string, ids: seq<string>): seq<Pair> {
    seq(|ids|, i requires 0 <= i < |ids| => (ids[i], t))
  }

  predicate TargetsOk(m: Tasks, t: string, ids: seq<string>) {
    forall id :: id in ids ==> id != "" && id != t && id in m && !m[id].status.Deleted?
  }

  function PairOf(id: string, target: string, forward: bool): Pair {
    if forward then (id, target) else (target, id)
  }

  function PairsOf(id: string, ids: seq<string>, forward: bool): seq<Pair> {
    if forward then From(id, ids) else To(id, ids)
  }

  /** One direction of a patch: the additions, then the removals. */
  function PatchSide(m: Tasks, t: string, adds: seq<string>, removes: seq<string>, forward: bool): Tasks {
    T.UnlinkAll(T.LinkAll(m, PairsOf(t, Unique(adds), forward)), PairsOf(t, Unique(removes), forward))
  }

  /** The four edge lists of a patch, in the order they are applied. */
  function PatchEdges(m: Tasks, t: string, p: TaskPatch): Tasks {
    PatchSide(PatchSide(m, t, p.addBlocks, p.removeBlocks, true), t, p.addBlockedBy, p.removeBlockedBy, false)
  }

  ghost predicate EdgesAccepted(m: Tasks, t: string, p: TaskPatch) {
    && TargetsOk(m, t, p.addBlocks) && TargetsOk(m, t, p.addBlockedBy)
    && !Cyclic(T.GraphOf(PatchEdges(m, t, p)))
  }

  function Stamped(m: Tasks, t: string, now: string): Tasks
    requires t in m
  {
    m[t := m[t].(updatedAt := now)]
  }

  ghost function UpdateStep(m: Tasks, t: string, p: TaskPatch, now: string): (Tasks, Outcome) {
    if t !in m then (m, Missing)
    else
      var base := m[t := WithFields(m[t], p)];
      if base[t].status.Deleted? then
        var m' := Stamped(T.Detach(base, t), t, now);
        (m', Updated(m'[t]))
      else if EdgesAccepted(base, t, p) && t in PatchEdges(base, t, p) then
        var m' := Stamped(PatchEdges(base, t, p), t, now);
        (m', Updated(m'[t]))
      else (m, Refused)
  }

  function Created(n: nat, input: NewTask, now: string): Task {
    T.Task(Itoa(n), input.subject, input.description, input.activeForm, T.Pending, "", [], [], input.metadata, now, now)
  }

  function DeleteStep(m: Tasks, t: string): Tasks {
    if t in m then T.Detach(m, t) - {t} else m
  }

  // ---- What every session satisfies ----

  ghost predicate Numbered(m: Tasks, counter: nat) {
    forall id :: id in m ==> exists n: nat :: 1 <= n <= counter && id == Itoa(n)
  }

  /** Mirrored lists, no cycle, identifiers handed out by the counter. */
  ghost predicate Consistent(m: Tasks, counter: nat) {
    T.Wired(m) && !Cyclic(T.GraphOf(m)) && Numbered(m, counter)
  }

  lemma NextIdIsFresh(m: Tasks, counter: nat)
    requires Numbered(m, counter)
    ensures Itoa(counter + 1) !in m
  {
    if Itoa(counter + 1) in m {
      var n: nat :| 1 <= n <= counter && Itoa(counter + 1) == Itoa(n);
      AtoiItoa(n);
      AtoiItoa(counter + 1);
    }
  }

  lemma FewerBlocksKeepAcyclic(m: Tasks, m': Tasks)
    requires T.Wired(m) && T.Wired(m')
    requires forall a, b :: T.Blocks(m', a, b) ==> T.Blocks(m, a, b)
    ensures Cyclic(T.GraphOf(m')) ==> Cyclic(T.GraphOf(m))
  {
    T.GraphOfBlocks(m);
    T.GraphOfBlocks(m');
    hide T.GraphOf, T.Blocks, Edge;
    SubgraphKeepsAcyclic(T.GraphOf(m), T.GraphOf(m'));
  }

  /** Rewriting fields other than the edges and the identity keeps the wiring. */
  lemma FieldsKeepWired(m: Tasks, t: string, task: Task)
    requires T.Wired(m) && t in m
    requires task.id == m[t].id && task.blocks == m[t].blocks && task.blockedBy == m[t].blockedBy
    requires task.status.Deleted? ==> task.blocks == [] && task.blockedBy == []
    ensures T.Wired(m[t := task])
    ensures forall a, b :: T.Blocks(m[t := task], a, b) <==> T.Blocks(m, a, b)
  {
    var m' := m[t := task];
    hide Distinct;
    forall a | a in m'
      ensures T.TaskOk(m', a)
    {
      assert T.TaskOk(m, a);
    }
  }

  lemma CreateKeeps(m: Tasks, counter: nat, input: NewTask, now: string)
    requires Consistent(m, counter)
    ensures Consistent(m[Itoa(counter + 1) := Created(counter + 1, input, now)], counter + 1)
    ensures Itoa(counter + 1) !in m
  {
    NextIdIsFresh(m, counter);
    var id := Itoa(counter + 1);
    var m' := m[id := Created(counter + 1, input, now)];
    forall a | a in m'
      ensures T.TaskOk(m', a)
    {
      if a != id {
        assert T.TaskOk(m, a);
      }
    }
    FewerBlocksKeepAcyclic(m, m');
    forall a | a in m'
      ensures exists n: nat :: 1 <= n <= counter + 1 && a == Itoa(n)
    {
      if a in m {
        var n: nat :| 1 <= n <= counter && a == Itoa(n);
      }
    }
  }

  /** A task without edges can go. */
  lemma DropKeepsWired(m: Tasks, t: string)
    requires T.Wired(m) && t in m && m[t].blocks == [] && m[t].blockedBy == []
    ensures T.Wired(m - {t})
    ensures forall a, b :: T.Blocks(m - {t}, a, b) <==> T.Blocks(m, a, b)
  {
    hide Distinct;
    forall a | a in m - {t}
      ensures T.TaskOk(m - {t}, a)
    {
      assert T.TaskOk(m, a);
    }
  }

  lemma DeleteKeeps(m: Tasks, counter: nat, t: string)
    requires Consistent(m, counter)
    ensures Consistent(DeleteStep(m, t), counter)
    ensures t in m ==> DeleteStep(m, t).Keys == m.Keys - {t}
    ensures forall a, b :: T.Blocks(DeleteStep(m, t), a, b) <==> T.Blocks(m, a, b) && a != t && b != t
  {
    hide T.GraphOf, Cyclic;
    if t in m {
      assert T.TaskOk(m, t);
      T.DetachKeeps(m, t);
      DropKeepsWired(T.Detach(m, t), t);
      hide T.Wired, T.Blocks;
      FewerBlocksKeepAcyclic(m, DeleteStep(m, t));
    } else {
      forall a, b | T.Blocks(m, a, b)
        ensures a != t && b != t
      {
        assert T.TaskOk(m, a);
      }
    }
  }

  /** Who blocks whom after an accepted patch of `t`. */
  predicate BlocksAfter(m: Tasks, t: string, p: TaskPatch, a: string, b: string) {
    && (((T.Blocks(m, a, b) || (a == t && b in p.addBlocks)) && !(a == t && b in p.removeBlocks))
        || (b == t && a in p.addBlockedBy))
    && !(b == t && a in p.removeBlockedBy)
  }

  lemma PairsOfMembers(t: string, ids: seq<string>, forward: bool)
    ensures forall e :: e in PairsOf(t, Unique(ids), forward) <==> exists x :: x in ids && e == PairOf(t, x, forward)
  {
    UniqueIsExact(ids);
    var u := Unique(ids);
    var pairs := PairsOf(t, u, forward);
    forall x | x in ids
      ensures PairOf(t, x, forward) in pairs
    {
      var i :| 0 <= i < |u| && u[i] == x;
      assert pairs[i] == PairOf(t, x, forward);
    }
    forall e | e in pairs
      ensures exists x :: x in ids && e == PairOf(t, x, forward)
    {
      var i :| 0 <= i < |pairs| && pairs[i] == e;
      assert u[i] in ids && e == PairOf(t, u[i], forward);
    }
  }

  lemma PatchSideKeeps(m: Tasks, t: string, adds: seq<string>, removes: seq<string>, forward: bool)
    requires T.Wired(m) && t in m && !m[t].status.Deleted? && TargetsOk(m, t, adds)
    ensures var m' := PatchSide(m, t, adds, removes, forward);
            && T.Wired(T.LinkAll(m, PairsOf(t, Unique(adds), forward)))
            && T.Wired(m') && T.SameButEdges(m, m')
            && forall a, b :: T.Blocks(m', a, b) <==>
                 && (T.Blocks(m, a, b) || exists x :: x in adds && (a, b) == PairOf(t, x, forward))
                 && !exists x :: x in removes && (a, b) == PairOf(t, x, forward)
  {
    PairsOfMembers(t, adds, forward);
    PairsOfMembers(t, removes, forward);
    hide PairsOf, Unique, T.Wired, T.LinkAll, T.UnlinkAll, T.Blocks;
    T.LinkAllKeeps(m, PairsOf(t, Unique(adds), forward));
    T.UnlinkAllKeeps(T.LinkAll(m, PairsOf(t, Unique(adds), forward)), PairsOf(t, Unique(removes), forward));
  }

  lemma PatchEdgesKeeps(m: Tasks, t: string, p: TaskPatch)
    requires T.Wired(m) && t in m && !m[t].status.Deleted?
    requires TargetsOk(m, t, p.addBlocks) && TargetsOk(m, t, p.addBlockedBy)
    ensures T.Wired(PatchEdges(m, t, p)) && T.SameButEdges(m, PatchEdges(m, t, p))
    ensures forall a, b :: T.Blocks(PatchEdges(m, t, p), a, b) <==> BlocksAfter(m, t, p, a, b)
  {
    hide PatchSide, T.Wired, T.Blocks;
    var half := PatchSide(m, t, p.addBlocks, p.removeBlocks, true);
    PatchSideKeeps(m, t, p.addBlocks, p.removeBlocks, true);
    PatchSideKeeps(half, t, p.addBlockedBy, p.removeBlockedBy, false);
    forall a, b
      ensures T.Blocks(PatchEdges(m, t, p), a, b) <==> BlocksAfter(m, t, p, a, b)
    {
      assert (a, b) == PairOf(t, b, true) <==> a == t;
      assert (a, b) == PairOf(t, a, false) <==> b == t;
    }
  }

  /**
   An update keeps the session consistent; when refused or missing it changes nothing;
   when accepted, exactly the edges the patch asks for differ.
   */
  lemma UpdateKeeps(m: Tasks, counter: nat, t: string, p: TaskPatch, now: string)
    requires Consistent(m, counter)
    ensures var (m', outcome) := UpdateStep(m, t, p, now);
            && Consistent(m', counter) && m'.Keys == m.Keys
            && (!outcome.Updated? ==> m' == m)
            && (outcome.Updated? ==> t in m)
            && (outcome.Updated? ==> forall a, b :: T.Blocks(m', a, b) <==>
                  if WithFields(m[t], p).status.Deleted? then T.Blocks(m, a, b) && a != t && b != t
                  else BlocksAfter(m, t, p, a, b))
  {
    if t in m {
      var task := WithFields(m[t], p);
      var base := m[t := task];
      assert T.TaskOk(m, t);
      if task.status.Deleted? {
        DetachUpdated(m, t, p, now);
      } else if EdgesAccepted(base, t, p) {
        PatchUpdated(m, t, p, now);
      }
    }
  }

  lemma DetachUpdated(m: Tasks, t: string, p: TaskPatch, now: string)
    requires T.Wired(m) && !Cyclic(T.GraphOf(m)) && t in m && m[t].id == t && WithFields(m[t], p).status.Deleted?
    ensures var m' := UpdateStep(m, t, p, now).0;
            && T.Wired(m') && !Cyclic(T.GraphOf(m')) && m'.Keys == m.Keys
            && forall a, b :: T.Blocks(m', a, b) <==> T.Blocks(m, a, b) && a != t && b != t
  {
    var base := m[t := WithFields(m[t], p)];
    forall a | a in base && a != t
      ensures T.TaskOk(base, a)
    {
      FieldsSpareOthers(m, t, WithFields(m[t], p), a);
    }
    T.DetachKeeps(base, t);
    hide WithFields, T.Wired, T.Detach, T.GraphOf, Cyclic;
    StampKeeps(T.Detach(base, t), t, now);
    assert forall a, b :: T.Blocks(base, a, b) && a != t && b != t <==> T.Blocks(m, a, b) && a != t && b != t;
    hide T.Blocks;
    FewerBlocksKeepAcyclic(m, Stamped(T.Detach(base, t), t, now));
  }

  lemma FieldsSpareOthers(m: Tasks, t: string, task: Task, a: string)
    requires T.Wired(m) && t in m && a in m && a != t
    requires task.blocks == m[t].blocks && task.blockedBy == m[t].blockedBy
    ensures T.TaskOk(m[t := task], a)
  {
    hide Distinct;
    assert T.TaskOk(m, a);
  }

  lemma PatchUpdated(m: Tasks, t: string, p: TaskPatch, now: string)
    requires T.Wired(m) && t in m && !WithFields(m[t], p).status.Deleted?
    requires EdgesAccepted(m[t := WithFields(m[t], p)], t, p)
    ensures var m' := UpdateStep(m, t, p, now).0;
            && T.Wired(m') && !Cyclic(T.GraphOf(m')) && m'.Keys == m.Keys
            && forall a, b :: T.Blocks(m', a, b) <==> BlocksAfter(m, t, p, a, b)
    ensures UpdateStep(m, t, p, now).1.Updated?
  {
    hide T.Wired, PatchEdges, PatchedMetadata;
    var base := m[t := WithFields(m[t], p)];
    FieldsKeepWired(m, t, WithFields(m[t], p));
    PatchEdgesKeeps(base, t, p);
    var patched := PatchEdges(base, t, p);
    StampKeeps(patched, t, now);
  }

  lemma StampKeeps(m: Tasks, t: string, now: string)
    requires T.Wired(m) && t in m
    ensures T.Wired(Stamped(m, t, now)) && (Cyclic(T.GraphOf(Stamped(m, t, now))) ==> Cyclic(T.GraphOf(m)))
    ensures forall a, b :: T.Blocks(Stamped(m, t, now), a, b) <==> T.Blocks(m, a, b)
  {
    assert T.TaskOk(m, t);
    FieldsKeepWired(m, t, m[t].(updatedAt := now));
    FewerBlocksKeepAcyclic(m, Stamped(m, t, now));
  }

  // ---- Runs ----

  datatype Op =
    | CreateOp(input: NewTask, now: string)
    | UpdateOp(id: string, patch: TaskPatch, now: string)
    | DeleteOp(id: string)

  datatype SessionTasks = SessionTasks(tasks: Tasks, counter: nat)

  ghost function StepOf(s: SessionTasks, op: Op): SessionTasks {
    match op
    case CreateOp(input, now) =>
      SessionTasks(s.tasks[Itoa(s.counter + 1) := Created(s.counter + 1, input, now)], s.counter + 1)
    case UpdateOp(id, patch, now) => s.(tasks := UpdateStep(s.tasks, id, patch, now).0)
    case DeleteOp(id) => s.(tasks := DeleteStep(s.tasks, id))
  }

  ghost function Run(ops: seq<Op>): SessionTasks {
    if ops == [] then SessionTasks(map[], 0) else StepOf(Run(ops[..|ops| - 1]), ops[|ops| - 1])
  }

  /** Over every run of task operations the session stays consistent. */
  lemma {:induction false} EveryRunIsConsistent(ops: seq<Op>)
    ensures Consistent(Run(ops).tasks, Run(ops).counter)
  {
    if ops == [] {
      RankedMeansAcyclic(T.GraphOf(map[]), []);
    } else {
      var s := Run(ops[..|ops| - 1]);
      EveryRunIsConsistent(ops[..|ops| - 1]);
      hide Consistent;
      match ops[|ops| - 1]
      case CreateOp(input, now) => CreateKeeps(s.tasks, s.counter, input, now);
      case UpdateOp(id, patch, now) => UpdateKeeps(s.tasks, s.counter, id, patch, now);
      case DeleteOp(id) => DeleteKeeps(s.tasks, s.counter, id);
    }
  }

  // ---- The class ----

  class InMemoryStore {
    var tasks: map<string, Tasks>
    var taskCounters: map<string, nat>

    ghost function TasksOf(session: string): Tasks
      reads this
    {
      if session in tasks then tasks[session] else map[]
    }

    ghost function CounterOf(session: string): nat
      reads this
    {
      if session in taskCounters then taskCounters[session] else 0
    }

    ghost predicate Valid()
      reads this
    {
      forall session :: session in tasks || session in taskCounters ==> Consistent(TasksOf(session), CounterOf(session))
    }

    constructor ()
      ensures Valid() && tasks == map[] && taskCounters == map[]
    {
      tasks, taskCounters := map[], map[];
    }

    lemma SessionIsConsistent(session: string)
      requires Valid()
      ensures Consistent(TasksOf(session), CounterOf(session))
    {
      if session !in tasks && session !in taskCounters { EveryRunIsConsistent([]); }
    }

    method CreateTask(session: string, input: NewTask, now: string) returns (task: Task)
      requires Valid()
      modifies this
      ensures Valid()
      ensures task == Created(old(CounterOf(session)) + 1, input, now)
      ensures task.id !in old(TasksOf(session))
      ensures TasksOf(session) == old(TasksOf(session))[task.id := task]
      ensures CounterOf(session) == old(CounterOf(session)) + 1
      ensures forall other :: other != session ==>
                TasksOf(other) == old(TasksOf(other)) && CounterOf(other) == old(CounterOf(other))
    {
      hide Consistent;
      SessionIsConsistent(session);
      var n := (if session in taskCounters then taskCounters[session] else 0) + 1;
      CreateKeeps(TasksOf(session), CounterOf(session), input, now);
      taskCounters := taskCounters[session := n];
      task := Created(n, input, now);
      var sessionTasks := if session in tasks then tasks[session] else map[];
      tasks := tasks[session := sessionTasks[task.id := task]];
    }

    method UpdateTask(session: string, id: string, patch: TaskPatch, now: string) returns (outcome: Outcome)
      requires Valid()
      modifies this
      ensures Valid()
      ensures (TasksOf(session), outcome) == UpdateStep(old(TasksOf(session)), id, patch, now)
      ensures taskCounters == old(taskCounters)
      ensures forall other :: other != session ==> TasksOf(other) == old(TasksOf(other))
    {
      hide Consistent, UpdateStep, T.Wired, T.Blocks;
      SessionIsConsistent(session);
      UpdateKeeps(TasksOf(session), CounterOf(session), id, patch, now);
      WiredOf(TasksOf(session), CounterOf(session));
      var copied := if session in tasks then tasks[session] else map[];
      copied, outcome := UpdateCopy(copied, id, patch, now);
      if outcome.Updated? { tasks := tasks[session := copied]; }
    }

    method DeleteTask(session: string, id: string) returns (existed: bool)
      requires Valid()
      modifies this
      ensures Valid()
      ensures existed == (id in old(TasksOf(session)))
      ensures TasksOf(session) == DeleteStep(old(TasksOf(session)), id)
      ensures taskCounters == old(taskCounters)
      ensures forall other :: other != session ==> TasksOf(other) == old(TasksOf(other))
    {
      hide Consistent, T.Wired, T.Blocks, T.Detach;
      SessionIsConsistent(session);
      DeleteKeeps(TasksOf(session), CounterOf(session), id);
      WiredOf(TasksOf(session), CounterOf(session));
      var copied := if session in tasks then tasks[session] else map[];
      if id !in copied { return false; }
      ghost var m := copied;
      var task := copied[id];
      copied, task := DetachTask(copied, id, task);
      assert m[id := m[id]] == m;
      assert copied - {id} == copied[id := task] - {id};
      copied := copied - {id};
      tasks := tasks[session := copied];
      return true;
    }

    /** Deletes the session's tasks together with their counter. */
    method Delete(session: string)
      requires Valid()
      modifies this
      ensures Valid()
      ensures TasksOf(session) == map[] && CounterOf(session) == 0
      ensures forall other :: other != session ==>
                TasksOf(other) == old(TasksOf(other)) && CounterOf(other) == old(CounterOf(other))
    {
      hide Consistent;
      tasks := tasks - {session};
      taskCounters := taskCounters - {session};
    }
  }

  /** The update of one session's copied tasks; the caller commits the copy on success. */
  method UpdateCopy(tasks: Tasks, id: string, patch: TaskPatch, now: string) returns (tasks': Tasks, outcome: Outcome)
    requires T.Wired(tasks)
    ensures (tasks', outcome) == UpdateStep(tasks, id, patch, now)
  {
    hide T.Wired, PatchEdges, T.Detach, EdgesAccepted, PatchedMetadata;
    if id !in tasks { return tasks, Missing; }
    NoSelfEdge(tasks, id);
    var task := WithFields(tasks[id], patch);
    var copied, ok := tasks, true;
    if task.status.Deleted? {
      copied, task := DetachTask(copied, id, task);
    } else {
      copied, task, ok := ApplyTaskEdges(copied, id, task, patch);
    }
    if !ok { return tasks, Refused; }
    ghost var m := copied[id := task];
    task := task.(updatedAt := now);
    copied := copied[id := task];
    assert copied == Stamped(m, id, now);
    return copied, Updated(task);
  }

  lemma WiredOf(m: Tasks, counter: nat)
    requires Consistent(m, counter)
    ensures T.Wired(m)
  {}

  lemma NotEarlier(ids: seq<string>, i: nat)
    requires Distinct(ids) && i < |ids|
    ensures ids[i] !in ids[..i] && ids[..i + 1] == ids[..i] + [ids[i]]
  {}

  /** The task `a` after `id` has left the lists it stands in. */
  function Released(a: Task, id: string, asBlocker: bool): Task {
    if asBlocker then a.(blocks := T.RemoveID(a.blocks, id)) else a.(blockedBy := T.RemoveID(a.blockedBy, id))
  }

  lemma ReleaseIsDetach(tasks: Tasks, id: string, task: Task, a: string)
    requires T.Wired(tasks) && id in tasks && a in tasks && a != id
    requires task.blocks == tasks[id].blocks && task.blockedBy == tasks[id].blockedBy
    ensures var half := if a in task.blocks then Released(tasks[a], id, false) else tasks[a];
            (if a in task.blockedBy then Released(half, id, true) else half) == T.Detach(tasks[id := task], id)[a]
  {
    assert T.TaskOk(tasks, a);
    assert T.TaskOk(tasks, id);
    T.RemoveIDIsExact(tasks[a].blocks, id);
    T.RemoveIDIsExact(tasks[a].blockedBy, id);
  }

  method ReleaseAll(tasks: Tasks, ids: seq<string>, id: string, asBlocker: bool) returns (tasks': Tasks)
    requires Distinct(ids) && forall a :: a in ids ==> a in tasks
    ensures tasks'.Keys == tasks.Keys
    ensures forall a :: a in tasks ==> tasks'[a] == if a in ids then Released(tasks[a], id, asBlocker) else tasks[a]
  {
    hide T.RemoveID, Distinct;
    tasks' := tasks;
    for i := 0 to |ids|
      invariant tasks'.Keys == tasks.Keys
      invariant forall a :: a in tasks ==>
                  tasks'[a] == if a in ids[..i] then Released(tasks[a], id, asBlocker) else tasks[a]
    {
      NotEarlier(ids, i);
      var other := tasks'[ids[i]];
      if asBlocker {
        other := other.(blocks := T.RemoveID(other.blocks, id));
      } else {
        other := other.(blockedBy := T.RemoveID(other.blockedBy, id));
      }
      tasks' := tasks'[ids[i] := other];
    }
    assert ids[..|ids|] == ids;
  }

  lemma ReleasedTwice(tasks: Tasks, half: Tasks, tasks': Tasks, id: string, task: Task)
    requires T.Wired(tasks) && id in tasks
    requires task.blocks == tasks[id].blocks && task.blockedBy == tasks[id].blockedBy
    requires tasks.Keys == half.Keys == tasks'.Keys
    requires forall a :: a in tasks ==> half[a] == if a in task.blocks then Released(tasks[a], id, false) else tasks[a]
    requires forall a :: a in half ==> tasks'[a] == if a in task.blockedBy then Released(half[a], id, true) else half[a]
    ensures tasks'[id := task.(blocks := [], blockedBy := [])] == T.Detach(tasks[id := task], id)
  {
    hide T.Wired, Released, T.RemoveID;
    forall a | a in tasks && a != id
      ensures tasks'[a] == T.Detach(tasks[id := task], id)[a]
    {
      ReleaseIsDetach(tasks, id, task, a);
    }
  }

  /** Takes `id` out of its neighbours' lists. The table still holds the task as it was. */
  method DetachTask(tasks: Tasks, id: string, task: Task) returns (tasks': Tasks, task': Task)
    requires T.Wired(tasks) && id in tasks
    requires task.blocks == tasks[id].blocks && task.blockedBy == tasks[id].blockedBy
    ensures tasks'[id := task'] == T.Detach(tasks[id := task], id)
    ensures tasks'.Keys == tasks.Keys
  {
    assert T.TaskOk(tasks, id);
    hide T.Wired, T.Detach, Released;
    var half := ReleaseAll(tasks, task.blocks, id, false);
    tasks' := ReleaseAll(half, task.blockedBy, id, true);
    ReleasedTwice(tasks, half, tasks', id, task);
    task' := task.(blocks := [], blockedBy := []);
  }

  lemma PairsOfPrefix(id: string, ids: seq<string>, forward: bool, i: nat)
    requires i < |ids|
    ensures PairsOf(id, ids[..i + 1], forward) == PairsOf(id, ids[..i], forward) + [PairOf(id, ids[i], forward)]
  {
    assert ids[..i + 1] == ids[..i] + [ids[i]];
  }

  lemma LinkLast(m: Tasks, es: seq<Pair>, e: Pair)
    ensures T.LinkAll(m, es + [e]) == T.Link(T.LinkAll(m, es), e)
    ensures T.UnlinkAll(m, es + [e]) == T.Unlink(T.UnlinkAll(m, es), e)
  {
    assert (es + [e])[..|es|] == es;
  }

  /** The two sides of one new edge, written one after the other. */
  lemma LinkInTurn(tasks: Tasks, id: string, task: Task, target: string)
    requires id in tasks && target in tasks && target != id
    ensures tasks[target := tasks[target].(blockedBy := T.AddID(tasks[target].blockedBy, id))]
              [id := task.(blocks := T.AddID(task.blocks, target))]
            == T.Link(tasks[id := task], (id, target))
    ensures tasks[target := tasks[target].(blocks := T.AddID(tasks[target].blocks, id))]
              [id := task.(blockedBy := T.AddID(task.blockedBy, target))]
            == T.Link(tasks[id := task], (target, id))
  {
    hide T.AddID;
  }

  lemma UnlinkInTurn(tasks: Tasks, id: string, task: Task, target: string)
    requires id in tasks && id !in task.blocks && id !in task.blockedBy
    ensures var rest := if target in tasks
                        then tasks[target := tasks[target].(blockedBy := T.RemoveID(tasks[target].blockedBy, id))] else tasks;
            rest[id := task.(blocks := T.RemoveID(task.blocks, target))] == T.Unlink(tasks[id := task], (id, target))
    ensures var rest := if target in tasks
                        then tasks[target := tasks[target].(blocks := T.RemoveID(tasks[target].blocks, id))] else tasks;
            rest[id := task.(blockedBy := T.RemoveID(task.blockedBy, target))] == T.Unlink(tasks[id := task], (target, id))
  {
    T.RemoveIDIsExact(task.blocks, id);
    T.RemoveIDIsExact(task.blockedBy, id);
    hide T.RemoveID;
  }

  predicate SameKeysAndStatus(m: Tasks, m': Tasks) {
    m'.Keys == m.Keys && forall a :: a in m ==> m'[a].status == m[a].status
  }

  /** One edge list added to the task and mirrored in the others; false at the first bad target. */
  method AddEdges(tasks: Tasks, id: string, task: Task, ids: seq<string>, forward: bool)
    returns (tasks': Tasks, task': Task, ok: bool)
    requires id in tasks
    ensures ok <==> TargetsOk(tasks, id, ids)
    ensures ok ==> tasks'[id := task'] == T.LinkAll(tasks[id := task], PairsOf(id, Unique(ids), forward))
    ensures ok ==> SameKeysAndStatus(tasks, tasks') && task'.status == task.status
  {
    hide T.LinkAll, T.Link, T.AddID, PairsOf;
    var unique := UniqueIDs(ids);
    UniqueIsExact(ids);
    tasks', task' := tasks, task;
    NoPairs(tasks[id := task], id, forward);
    for i := 0 to |unique|
      invariant TargetsOk(tasks, id, unique[..i])
      invariant tasks'[id := task'] == T.LinkAll(tasks[id := task], PairsOf(id, unique[..i], forward))
      invariant SameKeysAndStatus(tasks, tasks') && task'.status == task.status
    {
      var target := unique[i];
      assert target in ids;
      if target == "" || target == id { return tasks', task', false; }
      if target !in tasks' || tasks'[target].status.Deleted? { return tasks', task', false; }
      assert unique[..i + 1] == unique[..i] + [target];
      LinkInTurn(tasks', id, task', target);
      PairsOfPrefix(id, unique, forward, i);
      LinkLast(tasks[id := task], PairsOf(id, unique[..i], forward), PairOf(id, target, forward));
      var other := tasks'[target];
      if forward {
        task' := task'.(blocks := T.AddID(task'.blocks, target));
        other := other.(blockedBy := T.AddID(other.blockedBy, id));
      } else {
        task' := task'.(blockedBy := T.AddID(task'.blockedBy, target));
        other := other.(blocks := T.AddID(other.blocks, id));
      }
      tasks' := tasks'[target := other];
    }
    assert unique[..|unique|] == unique;
    ok := true;
  }

  lemma NoPairs(m: Tasks, id: string, forward: bool)
    ensures T.LinkAll(m, PairsOf(id, [], forward)) == m && T.UnlinkAll(m, PairsOf(id, [], forward)) == m
  {}

  /** One edge list removed from the task and from the others' mirrors. */
  method RemoveEdges(tasks: Tasks, id: string, task: Task, ids: seq<string>, forward: bool)
    returns (tasks': Tasks, task': Task)
    requires id in tasks && id !in task.blocks && id !in task.blockedBy
    ensures tasks'[id := task'] == T.UnlinkAll(tasks[id := task], PairsOf(id, Unique(ids), forward))
    ensures SameKeysAndStatus(tasks, tasks') && task'.status == task.status
  {
    hide T.UnlinkAll, T.Unlink, T.RemoveID, PairsOf;
    var unique := UniqueIDs(ids);
    tasks', task' := tasks, task;
    NoPairs(tasks[id := task], id, forward);
    for i := 0 to |unique|
      invariant id !in task'.blocks && id !in task'.blockedBy
      invariant tasks'[id := task'] == T.UnlinkAll(tasks[id := task], PairsOf(id, unique[..i], forward))
      invariant SameKeysAndStatus(tasks, tasks') && task'.status == task.status
    {
      var target := unique[i];
      T.RemoveIDIsExact(task'.blocks, target);
      T.RemoveIDIsExact(task'.blockedBy, target);
      UnlinkInTurn(tasks', id, task', target);
      PairsOfPrefix(id, unique, forward, i);
      LinkLast(tasks[id := task], PairsOf(id, unique[..i], forward), PairOf(id, target, forward));
      if forward {
        task' := task'.(blocks := T.RemoveID(task'.blocks, target));
      } else {
        task' := task'.(blockedBy := T.RemoveID(task'.blockedBy, target));
      }
      if target in tasks' {
        var other := tasks'[target];
        if forward {
          other := other.(blockedBy := T.RemoveID(other.blockedBy, id));
        } else {
          other := other.(blocks := T.RemoveID(other.blocks, id));
        }
        tasks' := tasks'[target := other];
      }
    }
    assert unique[..|unique|] == unique;
  }

  /** One direction of a patch, applied to the task and mirrored in the others. */
  method ApplySide(tasks: Tasks, id: string, task: Task, adds: seq<string>, removes: seq<string>, forward: bool)
    returns (tasks': Tasks, task': Task, ok: bool)
    requires id in tasks && T.Wired(tasks[id := task]) && !task.status.Deleted?
    ensures ok <==> TargetsOk(tasks[id := task], id, adds)
    ensures ok ==> tasks'[id := task'] == PatchSide(tasks[id := task], id, adds, removes, forward)
    ensures ok ==> T.Wired(tasks'[id := task']) && SameKeysAndStatus(tasks[id := task], tasks'[id := task'])
    ensures ok ==> id in tasks' && task'.status == task.status
  {
    hide T.Wired, Unique, PairsOf, T.LinkAll, T.UnlinkAll;
    tasks', task', ok := AddEdges(tasks, id, task, adds, forward);
    if !ok { return; }
    PatchSideKeeps(tasks[id := task], id, adds, removes, forward);
    NoSelfEdge(tasks'[id := task'], id);
    tasks', task' := RemoveEdges(tasks', id, task', removes, forward);
  }

  method ApplyTaskEdges(tasks: Tasks, id: string, task: Task, patch: TaskPatch)
    returns (tasks': Tasks, task': Task, ok: bool)
    requires T.Wired(tasks) && id in tasks && !task.status.Deleted?
    requires task.id == id && task.blocks == tasks[id].blocks && task.blockedBy == tasks[id].blockedBy
    ensures ok <==> EdgesAccepted(tasks[id := task], id, patch)
    ensures ok ==> tasks'[id := task'] == PatchEdges(tasks[id := task], id, patch) && id in tasks'
  {
    NoSelfEdge(tasks, id);
    FieldsKeepWired(tasks, id, task);
    hide T.Wired, PatchSide, Cyclic, TargetsOk, SameKeysAndStatus, T.GraphOf, GraphWith;
    ghost var m := tasks[id := task];
    tasks', task', ok := ApplySide(tasks, id, task, patch.addBlocks, patch.removeBlocks, true);
    if !ok { return; }
    TargetsStable(m, tasks'[id := task'], id, patch.addBlockedBy);
    tasks', task', ok := ApplySide(tasks', id, task', patch.addBlockedBy, patch.removeBlockedBy, false);
    if !ok { return; }
    var cyclic := HasTaskCycle(tasks', id, task');
    GraphWithUpdated(tasks', id, task');
    ok := !cyclic;
  }

  lemma TargetsStable(m: Tasks, m': Tasks, t: string, ids: seq<string>)
    requires SameKeysAndStatus(m, m')
    ensures TargetsOk(m, t, ids) <==> TargetsOk(m', t, ids)
  {}

  lemma GraphWithUpdated(tasks: Tasks, id: string, updated: Task)
    requires !updated.status.Deleted?
    ensures GraphWith(tasks, id, updated) == T.GraphOf(tasks[id := updated])
  {}

  lemma NoSelfEdge(m: Tasks, id: string)
    requires T.Wired(m) && id in m
    ensures m[id].id == id && id !in m[id].blocks && id !in m[id].blockedBy
  {
    assert T.TaskOk(m, id);
  }

  /** True exactly when the stored edges, with the updated task's in place of its own, contain a cycle. */
  method HasTaskCycle(tasks: Tasks, id: string, updated: Task) returns (found: bool)
    ensures found <==> Cyclic(GraphWith(tasks, id, updated))
  {
    var graph: Graph := map[];
    var rest := tasks.Keys;
    while rest != {}
      invariant rest <= tasks.Keys
      invariant graph == map a | a in tasks && a !in rest && !tasks[a].status.Deleted? :: tasks[a].blocks
    {
      var a :| a in rest;
      rest := rest - {a};
      if !tasks[a].status.Deleted? { graph := graph[a := tasks[a].blocks]; }
    }
    assert graph == T.GraphOf(tasks);
    graph := graph[id := updated.blocks];
    found := HasCycle(graph);
  }

  function GraphWith(tasks: Tasks, id: string, updated: Task): Graph {
    T.GraphOf(tasks)[id := updated.blocks]
  }
}
