/** What creating, updating and deleting a task do to its fields and to every other task. */
module TaskEffects {
  import opened Results
  import opened TaskGraph
  import opened TaskStore
  import T = TaskEdges

  predicate Patched<V(==)>(was: V, after: V, patch: Option<V>) {
    match patch
    case Some(value) => after == value
    case None => after == was
  }

  /** A key the patch does not name stays, one it gives a value has that value, one it clears is gone. */
  ghost predicate MetadataPatched(was: map<string, string>, after: map<string, string>, patch: map<string, Option<string>>) {
    forall k ::
      && (k !in patch ==> (k in after <==> k in was) && (k in was ==> after[k] == was[k]))
      && (k in patch && patch[k].Some? ==> k in after && after[k] == patch[k].value)
      && (k in patch && patch[k].None? ==> k !in after)
  }

  ghost predicate FieldsPatched(was: Task, after: Task, p: TaskPatch, now: string) {
    && after.id == was.id && after.createdAt == was.createdAt && after.updatedAt == now
    && Patched(was.subject, after.subject, p.subject) && Patched(was.description, after.description, p.description)
    && Patched(was.activeForm, after.activeForm, p.activeForm) && Patched(was.owner, after.owner, p.owner)
    && (if p.delete then after.status.Deleted? else Patched(was.status, after.status, p.status))
    && MetadataPatched(was.metadata, after.metadata, p.metadata)
  }

  /** The task is deleted by the patch, or was and stays so. */
  predicate EndsDeleted(was: Task, p: TaskPatch) {
    p.delete || p.status == Some(T.Deleted) || (p.status.None? && was.status.Deleted?)
  }

  /** All other tasks keep every field outside their edge lists. */
  predicate OthersKeepFields(m: Tasks, m': Tasks, t: string) {
    && m'.Keys == m.Keys
    && forall a :: a in m && a != t ==> m'[a] == m[a].(blocks := m'[a].blocks, blockedBy := m'[a].blockedBy)
  }

  /** A new edge leads to a known, undeleted task other than this one. */
  predicate MayPointTo(m: Tasks, t: string, target: string) {
    target != "" && target != t && target in m && !m[target].status.Deleted?
  }

  /** With the patch's edges in place, one task blocks the next along this list and the last is the first. */
  ghost predicate ClosesCycle(m: Tasks, t: string, p: TaskPatch, path: seq<string>) {
    && |path| >= 2 && path[0] == path[|path| - 1]
    && forall i :: 0 <= i < |path| - 1 ==> BlocksAfter(m, t, p, path[i], path[i + 1])
  }

  /**
   An update of a known task sets exactly the fields the patch names and stamps the task; every
   other task keeps all fields outside its two edge lists.
   */
  lemma UpdateEffect(m: Tasks, t: string, p: TaskPatch, now: string)
    requires T.Wired(m)
    ensures var (m', outcome) := UpdateStep(m, t, p, now);
            && (outcome.Missing? <==> t !in m)
            && (outcome.Updated? ==>
                  && t in m && t in m' && outcome.task == m'[t]
                  && FieldsPatched(m[t], m'[t], p, now) && OthersKeepFields(m, m', t))
            && (!outcome.Updated? ==> m' == m)
  {
    if t in m {
      var base := m[t := WithFields(m[t], p)];
      if base[t].status.Deleted? {
        DetachKeepsFields(base, t);
        StampedEffect(m, T.Detach(base, t), t, p, now);
      } else if EdgesAccepted(base, t, p) {
        FieldsKeepWired(m, t, WithFields(m[t], p));
        PatchEdgesKeeps(base, t, p);
        StampedEffect(m, PatchEdges(base, t, p), t, p, now);
      }
      hide WithFields, EdgesAccepted, PatchEdges, Stamped, T.Detach, T.SameButEdges, FieldsPatched, OthersKeepFields, T.Wired;
    }
  }

  lemma DetachKeepsFields(m: Tasks, t: string)
    ensures T.SameButEdges(m, T.Detach(m, t))
  {}

  lemma StampedEffect(m: Tasks, edited: Tasks, t: string, p: TaskPatch, now: string)
    requires t in m && t in edited && T.SameButEdges(m[t := WithFields(m[t], p)], edited)
    ensures FieldsPatched(m[t], Stamped(edited, t, now)[t], p, now) && OthersKeepFields(m, Stamped(edited, t, now), t)
  {
    FieldsAreSet(m[t], p);
    hide WithFields, MetadataPatched;
  }

  lemma FieldsAreSet(was: Task, p: TaskPatch)
    ensures FieldsPatched(was, WithFields(was, p).(updatedAt := ""), p, "")
    ensures WithFields(was, p).status.Deleted? <==> EndsDeleted(was, p)
  {}

  /** It is accepted exactly when it deletes the task, or its new edges have good ends and it closes no cycle. */
  lemma UpdateAcceptedIff(m: Tasks, t: string, p: TaskPatch, now: string)
    requires T.Wired(m) && t in m
    ensures UpdateStep(m, t, p, now).1.Updated? <==>
            || EndsDeleted(m[t], p)
            || ((forall b :: b in p.addBlocks || b in p.addBlockedBy ==> MayPointTo(m, t, b))
                && !exists path :: ClosesCycle(m, t, p, path))
  {
    FieldsAreSet(m[t], p);
    hide FieldsPatched;
    var base := m[t := WithFields(m[t], p)];
    if !EndsDeleted(m[t], p) {
      FieldsKeepWired(m, t, WithFields(m[t], p));
      TargetsAreTheSame(m, t, p);
      if TargetsOk(base, t, p.addBlocks) && TargetsOk(base, t, p.addBlockedBy) {
        PatchEdgesKeeps(base, t, p);
        CyclesAreTheSame(m, base, t, p);
      }
    }
    hide WithFields, PatchEdges, T.Wired, ClosesCycle, Cyclic;
  }

  lemma TargetsAreTheSame(m: Tasks, t: string, p: TaskPatch)
    requires t in m
    ensures var base := m[t := WithFields(m[t], p)];
            TargetsOk(base, t, p.addBlocks) && TargetsOk(base, t, p.addBlockedBy) <==>
            forall b :: b in p.addBlocks || b in p.addBlockedBy ==> MayPointTo(m, t, b)
  {
    hide WithFields;
  }

  lemma CyclesAreTheSame(m: Tasks, base: Tasks, t: string, p: TaskPatch)
    requires T.Wired(PatchEdges(base, t, p))
    requires forall a, b :: T.Blocks(base, a, b) <==> T.Blocks(m, a, b)
    requires forall a, b :: T.Blocks(PatchEdges(base, t, p), a, b) <==> BlocksAfter(base, t, p, a, b)
    ensures Cyclic(T.GraphOf(PatchEdges(base, t, p))) <==> exists path :: ClosesCycle(m, t, p, path)
  {
    var g := T.GraphOf(PatchEdges(base, t, p));
    T.GraphOfBlocks(PatchEdges(base, t, p));
    hide T.GraphOf, T.Wired, PatchEdges, T.Blocks, Edge;
    assert forall a, b :: Edge(g, a, b) <==> BlocksAfter(m, t, p, a, b);
    hide BlocksAfter;
    forall path
      ensures IsCycle(g, path) <==> ClosesCycle(m, t, p, path)
    {}
  }

  /** A created task has the given texts, is pending, without owner or edges, and new in its session. */
  lemma CreateEffect(s: SessionTasks, input: NewTask, now: string)
    requires Numbered(s.tasks, s.counter)
    ensures var s' := StepOf(s, CreateOp(input, now));
            && s'.counter == s.counter + 1 && |s'.tasks.Keys - s.tasks.Keys| == 1
            && exists id :: id !in s.tasks && id in s'.tasks && s'.tasks == s.tasks[id := s'.tasks[id]]
                 && var task := s'.tasks[id];
                    && task.id == id && Atoi(id) == s'.counter && task.status.Pending? && task.owner == ""
                    && task.blocks == [] && task.blockedBy == [] && task.createdAt == now && task.updatedAt == now
                    && task.subject == input.subject && task.description == input.description
                    && task.activeForm == input.activeForm && task.metadata == input.metadata
  {
    NextIdIsFresh(s.tasks, s.counter);
    AtoiItoa(s.counter + 1);
    var id := Itoa(s.counter + 1);
    var s' := StepOf(s, CreateOp(input, now));
    hide Itoa, Atoi;
    assert s'.tasks.Keys - s.tasks.Keys == {id};
    assert s'.tasks == s.tasks[id := s'.tasks[id]];
  }

  /** A deletion takes the task out and leaves every field of the others outside their edge lists. */
  lemma DeleteEffect(m: Tasks, t: string)
    ensures DeleteStep(m, t).Keys == m.Keys - {t}
    ensures forall a :: a in m && a != t ==>
              var after := DeleteStep(m, t)[a];
              after == m[a].(blocks := after.blocks, blockedBy := after.blockedBy)
  {}

  /** What a run leaves is what its operations leave, one after the other, from the empty session on. */
  lemma RunIsItsOperations(ops: seq<Op>, op: Op)
    ensures Run([]) == SessionTasks(map[], 0)
    ensures var s, s' := Run(ops), Run(ops + [op]);
            && s'.counter == (if op.CreateOp? then s.counter + 1 else s.counter)
            && (op.CreateOp? ==> s'.tasks == s.tasks[Itoa(s'.counter) := Created(s'.counter, op.input, op.now)])
            && (op.UpdateOp? ==> s'.tasks == UpdateStep(s.tasks, op.id, op.patch, op.now).0)
            && (op.DeleteOp? ==> s'.tasks == DeleteStep(s.tasks, op.id))
  {
    hide UpdateStep, DeleteStep, Created;
    assert (ops + [op])[..|ops|] == ops;
  }
}
