/** Which rules take part in a contract: everything joined to a contract rule by
    calls, followed in either direction. */
module Participation {
  import opened Ast

  /** Each rule's callees. */
  type Graph = map<string, set<string>>

  function CallGraph(p: Program): Graph { map n | n in p.rules :: RuleCalls(p.rules[n]) }

  ghost predicate Linked(g: Graph, a: string, b: string) {
    (a in g && b in g[a]) || (b in g && a in g[b])
  }

  ghost predicate Chain(g: Graph, path: seq<string>) {
    path != [] && forall i | 0 <= i < |path| - 1 :: Linked(g, path[i], path[i + 1])
  }

  ghost predicate Joined(g: Graph, a: string, b: string) {
    exists path :: Chain(g, path) && path[0] == a && path[|path| - 1] == b
  }

  ghost predicate Participates(g: Graph, seeds: set<string>, n: string) {
    exists s :: s in seeds && Joined(g, s, n)
  }

  ghost predicate Sound(g: Graph, seeds: set<string>, active: set<string>) {
    forall n {:trigger Participates(g, seeds, n)} | n in active :: Participates(g, seeds, n)
  }

  lemma SeedsSound(g: Graph, seeds: set<string>)
    ensures Sound(g, seeds, seeds)
  {
    forall s | s in seeds
      ensures Participates(g, seeds, s)
    {
      assert Chain(g, [s]);
      assert Joined(g, s, s);
    }
  }

  /** One rule's turn in a sweep. */
  function Touch(g: Graph, active: set<string>, name: string): set<string>
    requires name in g
  {
    if name in active || g[name] * active != {} then active + {name} + g[name] else active
  }

  lemma TouchSound(g: Graph, seeds: set<string>, active: set<string>, name: string)
    requires name in g && Sound(g, seeds, active)
    ensures Sound(g, seeds, Touch(g, active, name))
  {
    if name in active || g[name] * active != {} {
      if name !in active {
        var d :| d in g[name] * active;
        assert Participates(g, seeds, d);
        ParticipatesStep(g, seeds, d, name);
      }
      assert Participates(g, seeds, name);
      forall n | n in active + {name} + g[name]
        ensures Participates(g, seeds, n)
      {
        if n in g[name] { ParticipatesStep(g, seeds, name, n); }
      }
    }
  }

  lemma ParticipatesStep(g: Graph, seeds: set<string>, a: string, b: string)
    requires Participates(g, seeds, a) && Linked(g, a, b)
    ensures Participates(g, seeds, b)
  {
    var s :| s in seeds && Joined(g, s, a);
    var path :| Chain(g, path) && path[0] == s && path[|path| - 1] == a;
    var longer := path + [b];
    assert Chain(g, longer) && longer[0] == s && longer[|longer| - 1] == b;
  }

  /** No call edge leaves the set, in either direction. */
  ghost predicate Closed(g: Graph, active: set<string>) {
    forall n | n in g && (n in active || g[n] * active != {}) ::
      n in active && g[n] <= active
  }

  lemma {:induction false} ClosedCovers(g: Graph, active: set<string>, path: seq<string>)
    requires Closed(g, active) && Chain(g, path) && path[0] in active
    ensures path[|path| - 1] in active
    decreases |path|
  {
    if |path| > 1 {
      var rest := path[1..];
      assert Linked(g, path[0], path[1]);
      if path[1] in g && path[0] in g[path[1]] {
        assert path[0] in g[path[1]] * active;
      }
      assert path[1] in active;
      assert Chain(g, rest) by {
        forall i | 0 <= i < |rest| - 1
          ensures Linked(g, rest[i], rest[i + 1])
        {
          assert Linked(g, path[i + 1], path[i + 2]);
        }
      }
      ClosedCovers(g, active, rest);
    }
  }

  function Universe(g: Graph, seeds: set<string>): set<string> {
    seeds + g.Keys + set n, m | n in g && m in g[n] :: m
  }

  /** The closure loop returns exactly the participating names. */
  method Close(g: Graph, seeds: set<string>) returns (active: set<string>)
    ensures forall n :: n in active <==> Participates(g, seeds, n)
  {
    active := seeds;
    SeedsSound(g, seeds);
    ghost var all := Universe(g, seeds);
    var done := false;
    while !done
      invariant seeds <= active <= all
      invariant Sound(g, seeds, active)
      invariant done ==> Closed(g, active)
      decreases !done, all - active
    {
      var before := active;
      active := Pass(g, seeds, active);
      done := |before| == |active|;
      if done {
        assert active - before == {} by {
          assert |active| == |before| + |active - before| by { assert active == before + (active - before); }
        }
        assert before == active;
      } else {
        assert before < active;
      }
    }
    forall n | Participates(g, seeds, n)
      ensures n in active
    {
      var s :| s in seeds && Joined(g, s, n);
      var path :| Chain(g, path) && path[0] == s && path[|path| - 1] == n;
      ClosedCovers(g, active, path);
    }
  }

  /** One sweep over all rules; a sweep that changes nothing proves closure. */
  method Pass(g: Graph, seeds: set<string>, start: set<string>) returns (active: set<string>)
    requires seeds <= start <= Universe(g, seeds)
    requires Sound(g, seeds, start)
    ensures start <= active <= Universe(g, seeds)
    ensures Sound(g, seeds, active)
    ensures active == start ==> Closed(g, start)
  {
    active := start;
    var todo := g.Keys;
    while todo != {}
      invariant todo <= g.Keys && start <= active <= Universe(g, seeds)
      invariant Sound(g, seeds, active)
      invariant forall n | n in g && n !in todo && (n in start || g[n] * start != {}) ::
                  n in active && g[n] <= active
      decreases |todo|
    {
      var name :| name in todo;
      TouchSound(g, seeds, active, name);
      active := Touch(g, active, name);
      todo := todo - {name};
    }
  }

  /** The rules that declare an overflow contract. */
  function ContractRules(p: Program): set<string> {
    set n | n in p.rules && p.rules[n].overflow.Some?
  }

  /** The rules under the strict overflow contract. */
  method Participating(p: Program) returns (active: set<string>)
    ensures forall n :: n in active <==> Participates(CallGraph(p), ContractRules(p), n)
  {
    active := Close(CallGraph(p), ContractRules(p));
  }
}
