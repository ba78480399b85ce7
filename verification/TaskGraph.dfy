/** Directed graphs of task identifiers and the depth-first search for a cycle. */
module TaskGraph {

  type Graph = map<string, seq<string>>

  function Successors(g: Graph, v: string): seq<string> {
    if v in g then g[v] else []
  }

  predicate Edge(g: Graph, a: string, b: string) {
    b in Successors(g, a)
  }

  ghost predicate IsPath(g: Graph, p: seq<string>) {
    |p| >= 1 && forall i :: 0 <= i < |p| - 1 ==> Edge(g, p[i], p[i + 1])
  }

  ghost predicate IsCycle(g: Graph, p: seq<string>) {
    |p| >= 2 && IsPath(g, p) && p[0] == p[|p| - 1]
  }

  ghost predicate Cyclic(g: Graph) {
    exists p :: IsCycle(g, p)
  }

  /** Every listed node's successors are listed before it. */
  ghost predicate Ranked(g: Graph, done: seq<string>) {
    forall i, b :: 0 <= i < |done| && Edge(g, done[i], b) ==> b in done[..i]
  }

  lemma {:induction false} RankedPathDescends(g: Graph, done: seq<string>, p: seq<string>, k: nat)
    requires Ranked(g, done) && IsPath(g, p) && |p| >= 2
    requires k < |done| && p[0] == done[k]
    ensures p[|p| - 1] in done[..k]
  {
    assert Edge(g, p[0], p[1]);
    assert p[1] in done[..k];
    if |p| > 2 {
      var j :| 0 <= j < k && done[j] == p[1];
      var rest := p[1..];
      assert IsPath(g, rest) by {
        forall i | 0 <= i < |rest| - 1
          ensures Edge(g, rest[i], rest[i + 1])
        {
          assert Edge(g, p[i + 1], p[i + 2]);
        }
      }
      RankedPathDescends(g, done, rest, j);
      assert rest[|rest| - 1] == p[|p| - 1];
      var m :| 0 <= m < j && done[m] == p[|p| - 1];
      assert done[..k][m] == p[|p| - 1];
    }
  }

  lemma {:induction false} FirstIndex(s: seq<string>, x: string) returns (k: nat)
    requires x in s
    ensures k < |s| && s[k] == x && x !in s[..k]
  {
    if s[0] == x {
      k := 0;
    } else {
      var j := FirstIndex(s[1..], x);
      k := j + 1;
      assert s[..k] == [s[0]] + s[1..][..j];
    }
  }

  /** A listing of all nodes in which successors come first rules out every cycle. */
  lemma RankedMeansAcyclic(g: Graph, done: seq<string>)
    requires Ranked(g, done) && forall v :: v in g ==> v in done
    ensures !Cyclic(g)
  {
    forall p | IsCycle(g, p)
      ensures false
    {
      assert Edge(g, p[0], p[1]);
      var k := FirstIndex(done, p[0]);
      RankedPathDescends(g, done, p, k);
    }
  }

  /** Fewer edges, no new cycles. */
  lemma SubgraphKeepsAcyclic(g: Graph, g': Graph)
    requires forall a, b :: Edge(g', a, b) ==> Edge(g, a, b)
    ensures Cyclic(g') ==> Cyclic(g)
  {
    if Cyclic(g') {
      var p :| IsCycle(g', p);
      assert IsCycle(g, p);
    }
  }

  ghost function Nodes(g: Graph): set<string> {
    g.Keys + set v, b | v in g && b in g[v] :: b
  }

  ghost predicate SearchState(g: Graph, stack: seq<string>, done: seq<string>, visiting: set<string>, visited: set<string>) {
    && visiting == (set v | v in stack) && visited == (set v | v in done)
    && visiting <= Nodes(g) && visited <= Nodes(g)
    && (stack != [] ==> IsPath(g, stack))
    && Ranked(g, done)
  }

  method Visit(g: Graph, id: string, visiting: set<string>, visited: set<string>,
               ghost stack: seq<string>, ghost done: seq<string>)
    returns (found: bool, visited': set<string>, ghost done': seq<string>)
    requires SearchState(g, stack, done, visiting, visited) && id in Nodes(g)
    requires stack != [] ==> Edge(g, stack[|stack| - 1], id)
    ensures found ==> Cyclic(g)
    ensures !found ==> SearchState(g, stack, done', visiting, visited') && visited <= visited' && id in visited'
    decreases Nodes(g) - visiting - visited
  {
    done' := done;
    if id in visiting {
      StackClosesCycle(g, stack, id);
      return true, visited, done;
    }
    if id in visited { return false, visited, done; }
    visited' := visited;
    var next := Successors(g, id);
    ghost var deeper := stack + [id];
    PushKeepsPath(g, stack, id);
    for i := 0 to |next|
      invariant SearchState(g, deeper, done', visiting + {id}, visited')
      invariant visited <= visited'
      invariant forall j :: 0 <= j < i ==> next[j] in visited'
    {
      assert Edge(g, id, next[i]) && next[i] in Nodes(g);
      assert id in Nodes(g) - visiting - visited && id !in Nodes(g) - (visiting + {id}) - visited';
      assert Nodes(g) - (visiting + {id}) - visited' <= Nodes(g) - visiting - visited;
      found, visited', done' := Visit(g, next[i], visiting + {id}, visited', deeper, done');
      if found { return true, visited', done'; }
    }
    FinishKeepsRank(g, done', id);
    visited' := visited' + {id};
    done' := done' + [id];
    return false, visited', done';
  }

  lemma PushKeepsPath(g: Graph, stack: seq<string>, id: string)
    requires stack != [] ==> IsPath(g, stack) && Edge(g, stack[|stack| - 1], id)
    ensures IsPath(g, stack + [id])
    ensures (set v | v in stack + [id]) == (set v | v in stack) + {id}
  {
    var p := stack + [id];
    forall i | 0 <= i < |p| - 1
      ensures Edge(g, p[i], p[i + 1])
    {
      if i + 1 < |stack| { assert Edge(g, stack[i], stack[i + 1]); }
    }
  }

  lemma StackClosesCycle(g: Graph, stack: seq<string>, id: string)
    requires id in stack && IsPath(g, stack) && Edge(g, stack[|stack| - 1], id)
    ensures Cyclic(g)
  {
    PushKeepsPath(g, stack, id);
    var k :| 0 <= k < |stack| && stack[k] == id;
    var p := (stack + [id])[k..];
    forall i | 0 <= i < |p| - 1
      ensures Edge(g, p[i], p[i + 1])
    {
      assert Edge(g, (stack + [id])[k + i], (stack + [id])[k + i + 1]);
    }
    assert IsCycle(g, p);
  }

  lemma FinishKeepsRank(g: Graph, done: seq<string>, id: string)
    requires Ranked(g, done) && forall b :: b in Successors(g, id) ==> b in done
    ensures Ranked(g, done + [id])
    ensures (set v | v in done + [id]) == (set v | v in done) + {id}
  {
    var longer := done + [id];
    forall i, b | 0 <= i < |longer| && Edge(g, longer[i], b)
      ensures b in longer[..i]
    {
      if i < |done| {
        assert Edge(g, done[i], b);
        assert longer[..i] == done[..i];
      } else {
        assert longer[..i] == done;
      }
    }
  }

  /** The search from every node, in any order, finds a cycle exactly when there is one. */
  method HasCycle(g: Graph) returns (found: bool)
    ensures found <==> Cyclic(g)
  {
    var visited: set<string> := {};
    ghost var done: seq<string> := [];
    var rest := g.Keys;
    while rest != {}
      invariant rest <= g.Keys
      invariant SearchState(g, [], done, {}, visited)
      invariant forall v :: v in g && v !in rest ==> v in visited
    {
      var id :| id in rest;
      rest := rest - {id};
      found, visited, done := Visit(g, id, {}, visited, [], done);
      if found { return true; }
    }
    RankedMeansAcyclic(g, done);
    return false;
  }
}
