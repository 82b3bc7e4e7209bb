/** The call graph `scripts/stack-budget.py` walks, and what one function's calls can reach. */
module CallGraph {

  /** A node's title. Titles are compared and sorted by the program and nothing else is done to
      them, so they are numbered here in their sorted order. */
  type Title = nat

  datatype Graph = Graph(frame: map<Title, nat>, calls: map<Title, set<Title>>)

  /** `graph.calls.get(n, ())`. */
  function Callees(g: Graph, n: Title): set<Title> {
    if n in g.calls then g.calls[n] else {}
  }

  /** `graph.frame.get(n, 0)`. */
  function FrameOf(g: Graph, n: Title): nat {
    if n in g.frame then g.frame[n] else 0
  }

  ghost predicate Ascending(s: seq<Title>) {
    forall i, j :: 0 <= i < j < |s| ==> s[i] < s[j]
  }

  lemma {:induction false} HasLeast(s: set<Title>)
    requires s != {}
    ensures exists x :: x in s && forall y :: y in s ==> x <= y
  {
    var x :| x in s;
    if forall y :: y in s ==> x <= y {
    } else {
      var rest := s - {x};
      var y :| y in s && y < x;
      assert y in rest;
      HasLeast(rest);
      var z :| z in rest && forall w :: w in rest ==> z <= w;
      forall w | w in s ensures z <= w {
        assert w == x || w in rest;
      }
    }
  }

  function Least(s: set<Title>): (x: Title)
    requires s != {}
    ensures x in s && forall y :: y in s ==> x <= y
  {
    HasLeast(s);
    var x :| x in s && forall y :: y in s ==> x <= y;
    x
  }

  /** `sorted(s)`. */
  function Sorted(s: set<Title>): (r: seq<Title>)
    ensures Ascending(r)
    ensures forall x :: x in r <==> x in s
  {
    if s == {} then [] else [Least(s)] + Sorted(s - {Least(s)})
  }

  ghost predicate Distinct(c: seq<Title>) {
    forall i, j :: 0 <= i < j < |c| ==> c[i] != c[j]
  }

  ghost predicate IsPath(g: Graph, p: seq<Title>) {
    |p| > 0 && forall i, j :: 0 <= i && j == i + 1 && j < |p| ==> p[j] in Callees(g, p[i])
  }

  ghost predicate PathBetween(g: Graph, p: seq<Title>, a: Title, b: Title) {
    IsPath(g, p) && p[0] == a && p[|p| - 1] == b
  }

  /** A chain of calls, possibly of no call at all, leads from `a` to `b`. */
  ghost predicate Reach(g: Graph, a: Title, b: Title) {
    exists p :: PathBetween(g, p, a, b)
  }

  lemma ReachSelf(g: Graph, a: Title)
    ensures Reach(g, a, a)
  {
    assert PathBetween(g, [a], a, a);
  }

  lemma ReachEdge(g: Graph, a: Title, b: Title)
    requires b in Callees(g, a)
    ensures Reach(g, a, b)
  {
    assert PathBetween(g, [a, b], a, b);
  }

  lemma ReachTrans(g: Graph, a: Title, b: Title, c: Title)
    requires Reach(g, a, b) && Reach(g, b, c)
    ensures Reach(g, a, c)
  {
    var p :| PathBetween(g, p, a, b);
    var q :| PathBetween(g, q, b, c);
    var r := p + q[1..];
    forall i, j | 0 <= i && j == i + 1 && j < |r|
      ensures r[j] in Callees(g, r[i])
    {
      if j < |p| {
        assert r[i] == p[i] && r[j] == p[j];
      } else {
        assert r[i] == q[i - |p| + 1] && r[j] == q[j - |p| + 1];
      }
    }
    assert PathBetween(g, r, a, c);
  }

  /** No call leads out of `s`. */
  ghost predicate ClosedUnderCalls(g: Graph, s: set<Title>) {
    forall u, w :: u in s && w in Callees(g, u) ==> w in s
  }

  lemma {:induction false} PathStaysIn(g: Graph, s: set<Title>, p: seq<Title>)
    requires ClosedUnderCalls(g, s) && IsPath(g, p) && p[0] in s
    ensures p[|p| - 1] in s
    decreases |p|
  {
    if |p| > 1 {
      var rest := p[1..];
      assert p[1] in Callees(g, p[0]);
      assert IsPath(g, rest) by {
        forall i, j | 0 <= i && j == i + 1 && j < |rest| ensures rest[j] in Callees(g, rest[i]) {
          assert p[j + 1] in Callees(g, p[i + 1]);
        }
      }
      PathStaysIn(g, s, rest);
    }
  }

  lemma ReachStaysIn(g: Graph, s: set<Title>, a: Title, b: Title)
    requires ClosedUnderCalls(g, s) && a in s && Reach(g, a, b)
    ensures b in s
  {
    var p :| PathBetween(g, p, a, b);
    PathStaysIn(g, s, p);
  }
}
