/** The depth-first search for recursion. */
module CallCycles {
  import opened Ast
  import opened Participation

  /** Whether a call path from `n` runs into the stack or into itself. */
  predicate Cyclic(g: Graph, n: string, stack: set<string>)
    requires n in g
    decreases g.Keys - stack
  {
    n in stack || exists m | m in g[n] && m in g :: Cyclic(g, m, stack + {n})
  }

  ghost predicate CallPath(g: Graph, path: seq<string>) {
    && path != [] && (forall i | 0 <= i < |path| :: path[i] in g)
    && forall i | 0 <= i < |path| - 1 :: path[i + 1] in g[path[i]]
  }

  /** The path ends in a rule of the stack or in one it has passed. */
  ghost predicate Returns(path: seq<string>, stack: set<string>)
    requires path != []
  {
    var last := path[|path| - 1];
    last in stack || exists i | 0 <= i < |path| - 1 :: path[i] == last
  }

  ghost predicate ReachesCycle(g: Graph, n: string) {
    exists path :: CallPath(g, path) && path[0] == n && Returns(path, {})
  }

  lemma {:induction false} CyclicPath(g: Graph, n: string, stack: set<string>) returns (path: seq<string>)
    requires n in g && Cyclic(g, n, stack)
    ensures CallPath(g, path) && path[0] == n && Returns(path, stack)
    decreases g.Keys - stack
  {
    if n in stack {
      path := [n];
    } else {
      var m :| m in g[n] && m in g && Cyclic(g, m, stack + {n});
      var rest := CyclicPath(g, m, stack + {n});
      path := [n] + rest;
      var last := rest[|rest| - 1];
      assert path[|path| - 1] == last;
      if last == n {
        assert path[0] == last;
      } else if last !in stack {
        var i :| 0 <= i < |rest| - 1 && rest[i] == last;
        assert path[i + 1] == last;
      }
    }
  }

  lemma {:induction false} PathCyclic(g: Graph, path: seq<string>, stack: set<string>)
    requires CallPath(g, path) && Returns(path, stack)
    ensures Cyclic(g, path[0], stack)
    decreases |path|
  {
    var n := path[0];
    if n !in stack {
      var rest := path[1..];
      assert |path| > 1;
      assert rest[|rest| - 1] == path[|path| - 1];
      if path[|path| - 1] !in stack + {n} {
        var i :| 0 <= i < |path| - 1 && path[i] == path[|path| - 1];
        assert rest[i - 1] == rest[|rest| - 1];
      }
      PathCyclic(g, rest, stack + {n});
      assert path[1] in g[n];
    }
  }

  /** The search finds a cycle exactly when one can be reached by calls. */
  lemma CycleFound(g: Graph, n: string)
    requires n in g
    ensures Cyclic(g, n, {}) <==> ReachesCycle(g, n)
  {
    if Cyclic(g, n, {}) {
      var path := CyclicPath(g, n, {});
    }
    if ReachesCycle(g, n) {
      var path :| CallPath(g, path) && path[0] == n && Returns(path, {});
      PathCyclic(g, path, {});
    }
  }

  /** Each call of a rule without cycles leaves fewer rules to enter. */
  lemma CallDescends(g: Graph, n: string, m: string, stack: set<string>)
    requires n in g && m in g && m in g[n] && !Cyclic(g, n, stack)
    ensures !Cyclic(g, m, stack + {n}) && m != n && |g.Keys - (stack + {n})| == |g.Keys - stack| - 1 &&
      |g.Keys - stack| >= 2
  {
    var left := g.Keys - stack;
    assert g.Keys - (stack + {n}) == left - {n};
    assert !Cyclic(g, m, stack + {n});
    assert left - {n} == {m} + (left - {n} - {m});
  }
}
