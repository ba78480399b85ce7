/**
 Tasks with their two mirrored edge lists, and what linking and unlinking two of them does.
 */
module TaskEdges {
  import opened Ordering
  import opened TaskGraph

  /** A status is a text; any other than these four is kept as it is. */
  datatype TaskStatus = Pending | InProgress | Completed | Deleted | OtherStatus(text: string)

  datatype Task = Task(
    id: string, subject: string, description: string, activeForm: string, status: TaskStatus, owner: string,
    blocks: seq<string>, blockedBy: seq<string>, metadata: map<string, string>, createdAt: string, updatedAt: string)

  type Tasks = map<string, Task>

  function AddID(ids: seq<string>, id: string): seq<string> {
    if id in ids then ids else ids + [id]
  }

  function RemoveID(ids: seq<string>, id: string): seq<string> {
    if ids == [] then []
    else
      var front, last := RemoveID(ids[..|ids| - 1], id), ids[|ids| - 1];
      if last == id then front else front + [last]
  }

  /** The compaction keeps the order, and leaves the rest of the backing array as it was. */
  method RemoveInPlace(ids: array<string>, length: nat, id: string) returns (kept: nat)
    requires length <= ids.Length
    modifies ids
    ensures kept <= length && ids[..kept] == RemoveID(old(ids[..length]), id)
    ensures ids[length..] == old(ids[length..])
  {
    kept := 0;
    for i := 0 to length
      invariant kept <= i
      invariant ids[..kept] == RemoveID(old(ids[..i]), id)
      invariant ids[i..] == old(ids[i..])
    {
      assert ids[i] == old(ids[i..])[0] == old(ids[i]);
      assert old(ids[..i + 1])[..i] == old(ids[..i]);
      if ids[i] != id {
        ids[kept] := ids[i];
        kept := kept + 1;
      }
      assert ids[i + 1..] == old(ids[i..])[1..];
    }
  }

  lemma {:induction false} RemoveIDIsExact(ids: seq<string>, id: string)
    ensures forall x :: x in RemoveID(ids, id) <==> x in ids && x != id
    ensures id !in ids ==> RemoveID(ids, id) == ids
    ensures Distinct(ids) ==> Distinct(RemoveID(ids, id))
  {
    if ids != [] {
      var front, last := ids[..|ids| - 1], ids[|ids| - 1];
      RemoveIDIsExact(front, id);
      assert ids == front + [last];
      if Distinct(ids) && last != id {
        assert last !in front;
        AddIDIsExact(RemoveID(front, id), last);
      }
    }
  }

  lemma AddIDIsExact(ids: seq<string>, id: string)
    ensures forall x :: x in AddID(ids, id) <==> x in ids || x == id
    ensures Distinct(ids) ==> Distinct(AddID(ids, id))
  {}

  // ---- Well-wired tasks ----

  /** `a` blocks `b`. */
  predicate Blocks(m: Tasks, a: string, b: string) {
    a in m && b in m[a].blocks
  }

  ghost predicate TaskOk(m: Tasks, a: string)
    requires a in m
  {
    && m[a].id == a
    && Distinct(m[a].blocks) && Distinct(m[a].blockedBy)
    && a !in m[a].blocks
    && (forall b :: b in m[a].blocks ==> b in m && a in m[b].blockedBy)
    && (forall b :: b in m[a].blockedBy ==> b in m && a in m[b].blocks)
    && (m[a].status.Deleted? ==> m[a].blocks == [] && m[a].blockedBy == [])
  }

  /** The two lists mirror each other exactly: no self edge, duplicate, dangling id or edge of a deleted task. */
  ghost predicate Wired(m: Tasks) {
    forall a :: a in m ==> TaskOk(m, a)
  }

  function GraphOf(m: Tasks): Graph {
    map a | a in m && !m[a].status.Deleted? :: m[a].blocks
  }

  lemma GraphOfBlocks(m: Tasks)
    requires Wired(m)
    ensures forall a, b :: Edge(GraphOf(m), a, b) <==> Blocks(m, a, b)
  {
    forall a, b
      ensures Edge(GraphOf(m), a, b) <==> Blocks(m, a, b)
    {
      if a in m { assert TaskOk(m, a); }
    }
  }

  // ---- Linking and unlinking ----

  type Pair = (string, string)

  function Link(m: Tasks, e: Pair): Tasks {
    if e.0 in m && e.1 in m then
      var m1 := m[e.0 := m[e.0].(blocks := AddID(m[e.0].blocks, e.1))];
      m1[e.1 := m1[e.1].(blockedBy := AddID(m1[e.1].blockedBy, e.0))]
    else m
  }

  function Unlink(m: Tasks, e: Pair): Tasks {
    var m1 := if e.0 in m then m[e.0 := m[e.0].(blocks := RemoveID(m[e.0].blocks, e.1))] else m;
    if e.1 in m1 then m1[e.1 := m1[e.1].(blockedBy := RemoveID(m1[e.1].blockedBy, e.0))] else m1
  }

  function LinkAll(m: Tasks, es: seq<Pair>): Tasks {
    if es == [] then m else Link(LinkAll(m, es[..|es| - 1]), es[|es| - 1])
  }

  function UnlinkAll(m: Tasks, es: seq<Pair>): Tasks {
    if es == [] then m else Unlink(UnlinkAll(m, es[..|es| - 1]), es[|es| - 1])
  }

  /** Edges may change, nothing else about the tasks does. */
  predicate SameButEdges(m: Tasks, m': Tasks) {
    m'.Keys == m.Keys &&
    forall a :: a in m ==> m'[a] == m[a].(blocks := m'[a].blocks, blockedBy := m'[a].blockedBy)
  }

  predicate Linkable(m: Tasks, e: Pair) {
    e.0 in m && e.1 in m && e.0 != e.1 && !m[e.0].status.Deleted? && !m[e.1].status.Deleted?
  }

  lemma LinkKeeps(m: Tasks, e: Pair)
    requires Wired(m) && Linkable(m, e)
    ensures Wired(Link(m, e)) && SameButEdges(m, Link(m, e))
    ensures forall a, b :: Blocks(Link(m, e), a, b) <==> Blocks(m, a, b) || (a, b) == e
  {
    AddIDIsExact(m[e.0].blocks, e.1);
    AddIDIsExact(m[e.1].blockedBy, e.0);
    hide AddID, Distinct;
    var m' := Link(m, e);
    assert TaskOk(m, e.0) && TaskOk(m, e.1);
    forall a | a in m'
      ensures TaskOk(m', a)
    {
      assert TaskOk(m, a);
      LinkMirrors(m, e, a);
    }
  }

  lemma LinkMirrors(m: Tasks, e: Pair, a: string)
    requires Linkable(m, e) && a in m && TaskOk(m, a)
    ensures forall b :: b in Link(m, e)[a].blocks ==> b in m && a in Link(m, e)[b].blockedBy
    ensures forall b :: b in Link(m, e)[a].blockedBy ==> b in m && a in Link(m, e)[b].blocks
  {
    AddIDIsExact(m[e.0].blocks, e.1);
    AddIDIsExact(m[e.1].blockedBy, e.0);
    hide AddID, Distinct;
  }

  lemma UnlinkNothing(m: Tasks, e: Pair)
    requires Wired(m) && !Blocks(m, e.0, e.1)
    ensures Unlink(m, e) == m
  {
    if e.0 in m { RemoveIDIsExact(m[e.0].blocks, e.1); }
    if e.1 in m {
      assert TaskOk(m, e.1);
      RemoveIDIsExact(m[e.1].blockedBy, e.0);
    }
  }

  lemma UnlinkKeeps(m: Tasks, e: Pair)
    requires Wired(m)
    ensures Wired(Unlink(m, e)) && SameButEdges(m, Unlink(m, e))
    ensures forall a, b :: Blocks(Unlink(m, e), a, b) <==> Blocks(m, a, b) && (a, b) != e
  {
    if !Blocks(m, e.0, e.1) {
      UnlinkNothing(m, e);
    } else {
      assert TaskOk(m, e.0) && TaskOk(m, e.1);
      RemoveIDIsExact(m[e.0].blocks, e.1);
      RemoveIDIsExact(m[e.1].blockedBy, e.0);
      hide RemoveID, Distinct;
      var m' := Unlink(m, e);
      forall a | a in m'
        ensures TaskOk(m', a)
      {
        assert TaskOk(m, a);
        UnlinkMirrors(m, e, a);
      }
    }
  }

  lemma UnlinkMirrors(m: Tasks, e: Pair, a: string)
    requires e.0 in m && e.1 in m && e.0 != e.1 && a in m && TaskOk(m, a)
    ensures forall b :: b in Unlink(m, e)[a].blocks ==> b in m && a in Unlink(m, e)[b].blockedBy
    ensures forall b :: b in Unlink(m, e)[a].blockedBy ==> b in m && a in Unlink(m, e)[b].blocks
  {
    RemoveIDIsExact(m[e.0].blocks, e.1);
    RemoveIDIsExact(m[e.1].blockedBy, e.0);
    hide RemoveID, Distinct;
  }

  lemma {:induction false} LinkAllKeeps(m: Tasks, es: seq<Pair>)
    requires Wired(m) && forall e :: e in es ==> Linkable(m, e)
    ensures Wired(LinkAll(m, es)) && SameButEdges(m, LinkAll(m, es))
    ensures forall a, b :: Blocks(LinkAll(m, es), a, b) <==> Blocks(m, a, b) || (a, b) in es
  {
    hide Link, Wired, Blocks;
    if es != [] {
      var front, last := es[..|es| - 1], es[|es| - 1];
      assert es == front + [last];
      assert Linkable(m, last);
      LinkAllKeeps(m, front);
      LinkKeeps(LinkAll(m, front), last);
    }
  }

  lemma {:induction false} UnlinkAllKeeps(m: Tasks, es: seq<Pair>)
    requires Wired(m)
    ensures Wired(UnlinkAll(m, es)) && SameButEdges(m, UnlinkAll(m, es))
    ensures forall a, b :: Blocks(UnlinkAll(m, es), a, b) <==> Blocks(m, a, b) && (a, b) !in es
  {
    hide Unlink, Wired, Blocks;
    if es != [] {
      var front, last := es[..|es| - 1], es[|es| - 1];
      assert es == front + [last];
      UnlinkAllKeeps(m, front);
      UnlinkKeeps(UnlinkAll(m, front), last);
    }
  }

  // ---- Detaching a task from all others ----

  function Detach(m: Tasks, t: string): Tasks {
    map a | a in m ::
      if a == t then m[a].(blocks := [], blockedBy := [])
      else m[a].(blocks := RemoveID(m[a].blocks, t), blockedBy := RemoveID(m[a].blockedBy, t))
  }

  lemma DetachKeeps(m: Tasks, t: string)
    requires forall a :: a in m && a != t ==> TaskOk(m, a)
    ensures Wired(Detach(m, t)) <==> (t in m ==> m[t].id == t)
    ensures forall a, b :: Blocks(Detach(m, t), a, b) <==> Blocks(m, a, b) && a != t && b != t
  {
    var m' := Detach(m, t);
    forall a | a in m && a != t
      ensures TaskOk(m', a)
      ensures forall b :: b in m'[a].blocks <==> b in m[a].blocks && b != t
    {
      assert TaskOk(m, a);
      RemoveIDIsExact(m[a].blocks, t);
      RemoveIDIsExact(m[a].blockedBy, t);
      forall b | b in m && b != t
        ensures a in m'[b].blocks <==> a in m[b].blocks
        ensures a in m'[b].blockedBy <==> a in m[b].blockedBy
      {
        RemoveIDIsExact(m[b].blocks, t);
        RemoveIDIsExact(m[b].blockedBy, t);
      }
    }
    if t in m && m[t].id == t { assert TaskOk(m', t); }
    if t in m && m[t].id != t { assert !TaskOk(m', t); }
  }
}
