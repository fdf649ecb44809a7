/**
 Who waits for whom: the wait-for graph that `posix_locks_deadlock` searches. An edge `(t, o)`
 says that task `t` sleeps on the block list of a lock that task `o` owns.
 */
module WaitGraph {

  type Task = nat
  type Graph = multiset<(Task, Task)>

  /** No task sleeps on two block lists, or twice on one. */
  ghost predicate Single(E: Graph)
  {
    (forall e :: e in E ==> E[e] == 1) &&
    (forall e, d :: e in E && d in E && e.0 == d.0 ==> e == d)
  }

  predicate Sleeps(E: Graph, t: Task)
  {
    exists e :: e in E && e.0 == t
  }

  predicate Path(E: Graph, p: seq<Task>)
  {
    |p| > 0 && forall i :: 0 < i < |p| ==> (p[i - 1], p[i]) in E
  }

  /** A chain of waiting tasks, possibly empty, leads from `a` to `b`. */
  ghost predicate Reaches(E: Graph, a: Task, b: Task)
  {
    exists p :: Path(E, p) && p[0] == a && p[|p| - 1] == b
  }

  /** Deadlock: a task that, through others, waits for itself. */
  predicate Cycle(E: Graph, p: seq<Task>)
  {
    |p| > 1 && Path(E, p) && p[0] == p[|p| - 1]
  }

  ghost predicate Acyclic(E: Graph)
  {
    forall p :: !Cycle(E, p)
  }

  /** Taking waiting tasks away creates neither a second wait nor a deadlock. */
  lemma FewerEdges(E: Graph, D: Graph)
    requires D <= E
    ensures Acyclic(E) ==> Acyclic(D)
    ensures Single(E) ==> Single(D)
  {
    if Acyclic(E) {
      forall p ensures !Cycle(D, p) {
        assert !Cycle(E, p);
      }
    }
    if Single(E) {
      forall e | e in D ensures D[e] == 1 {
        assert e in E;
      }
      forall e, d | e in D && d in D && e.0 == d.0 ensures e == d {
        assert e in E && d in E;
      }
    }
  }

  /** The first place where a sequence has `t`. */
  function FirstOf(p: seq<Task>, t: Task): (k: nat)
    requires t in p
    ensures k < |p| && p[k] == t && t !in p[..k]
  {
    if p[0] == t then 0
    else
      var k := FirstOf(p[1..], t);
      assert p[..k + 1] == [p[0]] + p[1..][..k];
      k + 1
  }

  lemma OldEdge(E: Graph, t: Task, b: Task, x: Task, y: Task)
    requires (x, y) in E + multiset{(t, b)} && x != t
    ensures (x, y) in E
  {
  }

  /** A chain through the new edge `(t, b)` from `b` back to `t` does without that edge. */
  lemma WithoutNewEdge(E: Graph, t: Task, b: Task, p: seq<Task>)
    requires Path(E + multiset{(t, b)}, p) && p[0] == b && p[|p| - 1] == t
    ensures Reaches(E, b, t)
  {
    hide FirstOf;
    var k := FirstOf(p, t);
    var q := p[..k + 1];
    forall i | 0 < i < |q| ensures (q[i - 1], q[i]) in E {
      assert q[i - 1] == p[i - 1] && q[i] == p[i] && p[i - 1] == p[..k][i - 1];
      assert p[i - 1] != t;
      OldEdge(E, t, b, p[i - 1], p[i]);
    }
    assert Path(E, q) && q[0] == b && q[|q| - 1] == t;
  }

  /** A cycle that uses the edge from its place `i`, opened up there. */
  lemma Rotate(E: Graph, p: seq<Task>, i: nat)
    requires Cycle(E, p) && 0 < i < |p|
    ensures var q := p[i..] + p[1..i]; Path(E, q) && q[0] == p[i] && q[|q| - 1] == p[i - 1]
  {
    var q := p[i..] + p[1..i];
    forall j | 0 < j < |q| ensures (q[j - 1], q[j]) in E {
      var n := |p| - i;
      if j < n {
        assert q[j - 1] == p[i + j - 1] && q[j] == p[i + j];
      } else {
        assert q[j] == p[j - n + 1] && q[j - 1] == p[j - n];
      }
    }
  }

  lemma CycleNeedsNewEdge(E: Graph, t: Task, b: Task, p: seq<Task>)
    requires Acyclic(E) && Cycle(E + multiset{(t, b)}, p)
    ensures Reaches(E, b, t)
  {
    assert !Cycle(E, p);
    var i :| 0 < i < |p| && (p[i - 1], p[i]) !in E;
    assert (p[i - 1], p[i]) == (t, b);
    hide Path;
    Rotate(E + multiset{(t, b)}, p, i);
    WithoutNewEdge(E, t, b, p[i..] + p[1..i]);
  }

  lemma NewEdgeCloses(E: Graph, t: Task, b: Task, p: seq<Task>)
    requires Path(E, p) && p[0] == b && p[|p| - 1] == t
    ensures Cycle(E + multiset{(t, b)}, [t] + p)
  {
  }

  /** The test is exact: the new wait closes a cycle if and only if the task it waits for already
      waits, directly or through others, for the newcomer. */
  lemma NewWait(E: Graph, t: Task, b: Task)
    requires Acyclic(E)
    ensures Acyclic(E + multiset{(t, b)}) <==> !Reaches(E, b, t)
  {
    hide Cycle;
    var D := E + multiset{(t, b)};
    if Reaches(E, b, t) {
      var p :| Path(E, p) && p[0] == b && p[|p| - 1] == t;
      NewEdgeCloses(E, t, b, p);
    } else {
      forall p ensures !Cycle(D, p) {
        if Cycle(D, p) {
          CycleNeedsNewEdge(E, t, b, p);
        }
      }
    }
  }

  lemma NewSingle(E: Graph, t: Task, b: Task)
    requires Single(E) && !Sleeps(E, t)
    ensures Single(E + multiset{(t, b)})
  {
  }

  lemma DropFirst(E: Graph, p: seq<Task>)
    requires Path(E, p) && |p| > 1
    ensures Path(E, p[1..]) && (p[0], p[1]) in E
  {
  }

  lemma PutBefore(E: Graph, a: Task, p: seq<Task>)
    requires Path(E, p) && (a, p[0]) in E
    ensures Path(E, [a] + p)
  {
  }

  /** One step along the only edge that leaves `a`. */
  lemma StepAlong(E: Graph, a: Task, b: Task, t: Task)
    requires Single(E) && (a, b) in E && a != t
    ensures Reaches(E, a, t) <==> Reaches(E, b, t)
  {
    if Reaches(E, a, t) {
      var p :| Path(E, p) && p[0] == a && p[|p| - 1] == t;
      hide Path;
      DropFirst(E, p);
      assert p[1..][|p| - 2] == t;
    }
    if Reaches(E, b, t) {
      var p :| Path(E, p) && p[0] == b && p[|p| - 1] == t;
      hide Path;
      PutBefore(E, a, p);
      assert ([a] + p)[|p|] == t;
    }
  }

  lemma FirstSleeps(E: Graph, p: seq<Task>)
    requires Path(E, p) && |p| > 1
    ensures Sleeps(E, p[0])
  {
    assert (p[0], p[1]) in E;
  }

  lemma EndOfChain(E: Graph, a: Task, t: Task)
    requires !Sleeps(E, a)
    ensures Reaches(E, a, t) <==> a == t
  {
    if Reaches(E, a, t) {
      var p :| Path(E, p) && p[0] == a && p[|p| - 1] == t;
      if |p| > 1 {
        FirstSleeps(E, p);
      }
    }
    if a == t {
      assert Path(E, [a]);
    }
  }

  ghost function Sleepers(E: Graph): set<Task>
  {
    set e | e in E :: e.0
  }

  /** A chain never comes back to a task it has passed. */
  lemma NeverBack(E: Graph, p: seq<Task>, b: Task)
    requires Acyclic(E) && Path(E, p + [b])
    ensures b !in p
  {
    if b in p {
      var k :| 0 <= k < |p| && p[k] == b;
      assert Cycle(E, (p + [b])[k..]);
    }
  }

  lemma OnePath(E: Graph, a: Task)
    ensures Path(E, [a])
  {
  }

  lemma ReachesSelf(E: Graph, a: Task)
    ensures Reaches(E, a, a)
  {
    assert Path(E, [a]);
  }

  /** Each step of the search meets a new sleeping task. */
  lemma LongerPath(E: Graph, p: seq<Task>, b: Task)
    requires Acyclic(E) && Path(E, p) && (p[|p| - 1], b) in E
    ensures Path(E, p + [b]) && b !in p
    ensures p[|p| - 1] in Sleepers(E)
  {
    assert Path(E, p + [b]);
    NeverBack(E, p, b);
  }
}
