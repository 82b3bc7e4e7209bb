/** `heaviest_cycle` (scripts/stack-budget.py): an exhaustive search for the simple cycle with the
    largest frames, each cycle looked for only from its least member. */
module HeaviestCycle {
  import opened CallGraph

  // ----- What the result means -----

  ghost predicate Inside(c: seq<Title>, inside: set<Title>) {
    forall n :: n in c ==> n in inside
  }

  /** A simple cycle of calls that stays among `inside`; one node calling itself is one. */
  ghost predicate IsCycle(g: Graph, inside: set<Title>, c: seq<Title>) {
    IsPath(g, c) && Distinct(c) && Inside(c, inside) && c[0] in Callees(g, c[|c| - 1])
  }

  function Cost(g: Graph, c: seq<Title>): nat {
    if c == [] then 0 else Cost(g, c[..|c| - 1]) + FrameOf(g, c[|c| - 1])
  }

  /** No simple cycle costs more than `best`, and one costs exactly that unless it is 0. */
  ghost predicate IsHeaviest(g: Graph, inside: set<Title>, best: nat) {
    && (forall c :: IsCycle(g, inside, c) ==> Cost(g, c) <= best)
    && (best == 0 || exists c :: IsCycle(g, inside, c) && Cost(g, c) == best)
  }

  // ----- The search, as a function of what is left to try -----

  function Elements(p: seq<Title>): set<Title> {
    set n | n in p
  }

  function Max(a: nat, b: nat): nat {
    if a < b then b else a
  }

  /** The calls of `n` that stay inside, in order. */
  function Next(g: Graph, inside: set<Title>, n: Title): seq<Title> {
    Sorted(Callees(g, n) * inside)
  }

  /** Whether the search goes on to `step` from a path that began at `path[0]`. */
  ghost predicate Extends(inside: set<Title>, path: seq<Title>, step: Title)
    requires path != []
  {
    step != path[0] && step !in path && step > path[0] && step in inside
  }

  /** The heaviest cycle closed by following `rest` from the end of `path`, and on. */
  ghost function Explore(g: Graph, inside: set<Title>, path: seq<Title>, rest: seq<Title>): nat
    requires path != []
    decreases inside - Elements(path), |rest|
  {
    if rest == [] then 0
    else
      var step := rest[0];
      var here := if step == path[0] then Cost(g, path)
                  else if Extends(inside, path, step) then
                    ExtendShrinks(inside, path, step);
                    Explore(g, inside, path + [step], Next(g, inside, step))
                  else 0;
      Max(here, Explore(g, inside, path, rest[1..]))
  }

  lemma ExtendShrinks(inside: set<Title>, path: seq<Title>, step: Title)
    requires path != [] && Extends(inside, path, step)
    ensures inside - Elements(path + [step]) < inside - Elements(path)
  {
    assert step in inside - Elements(path);
    assert step in path + [step];
    assert forall n :: n in path ==> n in path + [step];
  }

  /** How many times the loop goes round for the same exploration. */
  ghost function Rounds(g: Graph, inside: set<Title>, path: seq<Title>, rest: seq<Title>): nat
    requires path != []
    decreases inside - Elements(path), |rest|
  {
    if rest == [] then 1
    else
      var step := rest[0];
      var here: nat := if Extends(inside, path, step) then
                    ExtendShrinks(inside, path, step);
                    Rounds(g, inside, path + [step], Next(g, inside, step))
                  else 0;
      1 + here + Rounds(g, inside, path, rest[1..])
  }

  // ----- Everything the search finds is a cycle, and it finds every one -----

  ghost predicate IsTrail(g: Graph, inside: set<Title>, p: seq<Title>) {
    IsPath(g, p) && Distinct(p) && Inside(p, inside) && forall i :: 0 < i < |p| ==> p[0] < p[i]
  }

  lemma ExtendedTrail(g: Graph, inside: set<Title>, p: seq<Title>, step: Title)
    requires IsTrail(g, inside, p) && step in Callees(g, p[|p| - 1]) && Extends(inside, p, step)
    ensures IsTrail(g, inside, p + [step])
  {
  }

  lemma {:induction false} ExploreFindsCycles(g: Graph, inside: set<Title>, path: seq<Title>, rest: seq<Title>)
    requires IsTrail(g, inside, path)
    requires forall n :: n in rest ==> n in Callees(g, path[|path| - 1])
    ensures var found := Explore(g, inside, path, rest);
            found == 0 || exists c :: IsCycle(g, inside, c) && Cost(g, c) == found
    decreases inside - Elements(path), |rest|
  {
    if rest != [] {
      var step := rest[0];
      assert step in rest && forall n :: n in rest[1..] ==> n in rest;
      ExploreFindsCycles(g, inside, path, rest[1..]);
      if step == path[0] {
        assert IsCycle(g, inside, path);
      } else if Extends(inside, path, step) {
        ExtendShrinks(inside, path, step);
        ExtendedTrail(g, inside, path, step);
        ExploreFindsCycles(g, inside, path + [step], Next(g, inside, step));
      }
    }
  }

  lemma {:induction false} ExploreMissesNothing(g: Graph, inside: set<Title>, c: seq<Title>, k: nat, rest: seq<Title>)
    requires IsCycle(g, inside, c) && IsTrail(g, inside, c) && 0 < k <= |c|
    requires (if k < |c| then c[k] else c[0]) in rest
    ensures Cost(g, c) <= Explore(g, inside, c[..k], rest)
    decreases |c| - k, |rest|
  {
    var path, step := c[..k], rest[0];
    var wanted := if k < |c| then c[k] else c[0];
    if step != wanted {
      ExploreMissesNothing(g, inside, c, k, rest[1..]);
    } else if k == |c| {
      assert path == c;
    } else {
      assert c[k] !in path;
      assert Extends(inside, path, step);
      assert path + [step] == c[..k + 1];
      var after := if k + 1 < |c| then c[k + 1] else c[0];
      assert after in Callees(g, step) * inside by {
        assert c[k] == step && after in c;
      }
      ExploreMissesNothing(g, inside, c, k + 1, Next(g, inside, step));
    }
  }

  // ----- Turning a cycle so that it starts at its least member -----

  lemma {:induction false} CostConcat(g: Graph, a: seq<Title>, b: seq<Title>)
    ensures Cost(g, a + b) == Cost(g, a) + Cost(g, b)
    decreases |b|
  {
    if b == [] {
      assert a + b == a;
    } else {
      var b' := b[..|b| - 1];
      assert (a + b)[..|a + b| - 1] == a + b';
      CostConcat(g, a, b');
    }
  }

  lemma {:induction false} LeastPosition(c: seq<Title>) returns (k: nat)
    requires c != []
    ensures k < |c| && forall i :: 0 <= i < |c| ==> c[k] <= c[i]
    decreases |c|
  {
    if |c| == 1 {
      k := 0;
    } else {
      var j := LeastPosition(c[..|c| - 1]);
      k := if c[j] <= c[|c| - 1] then j else |c| - 1;
    }
  }

  lemma Rotate(g: Graph, inside: set<Title>, c: seq<Title>, k: nat)
    requires IsCycle(g, inside, c) && k < |c|
    ensures IsCycle(g, inside, c[k..] + c[..k])
    ensures Cost(g, c[k..] + c[..k]) == Cost(g, c)
  {
    var a, b := c[..k], c[k..];
    var r := b + a;
    assert c == a + b;
    CostConcat(g, a, b);
    CostConcat(g, b, a);
    forall i, j | 0 <= i && j == i + 1 && j < |r| ensures r[j] in Callees(g, r[i]) {
      if j < |b| {
        assert r[i] == c[k + i] && r[j] == c[k + j];
      } else if j == |b| {
        assert r[i] == c[|c| - 1] && r[j] == c[0];
      } else {
        assert r[i] == c[i - |b|] && r[j] == c[j - |b|];
      }
    }
    assert Inside(r, inside) by {
      assert forall n :: n in r ==> n in c;
    }
    assert Distinct(r) by {
      forall i, j | 0 <= i < j < |r| ensures r[i] != r[j] {
        var x := if i < |b| then k + i else i - |b|;
        var y := if j < |b| then k + j else j - |b|;
        assert r[i] == c[x] && r[j] == c[y];
      }
    }
    if k > 0 {
      assert r[|r| - 1] == c[k - 1] && r[0] == c[k];
    } else {
      assert r == c;
    }
  }

  lemma LeastFirst(g: Graph, inside: set<Title>, c: seq<Title>) returns (r: seq<Title>)
    requires IsCycle(g, inside, c)
    ensures IsCycle(g, inside, r) && IsTrail(g, inside, r) && Cost(g, r) == Cost(g, c)
  {
    var k := LeastPosition(c);
    r := c[k..] + c[..k];
    Rotate(g, inside, c, k);
    assert r[0] == c[k];
    forall i | 0 < i < |r| ensures r[0] < r[i] {
      assert r[i] in c;
      assert r[0] != r[i];
    }
  }

  // ----- The loop -----

  datatype Visit = Visit(node: Title, rest: seq<Title>)

  ghost function Nodes(work: seq<Visit>): (p: seq<Title>)
    ensures |p| == |work|
    ensures forall i :: 0 <= i < |work| ==> p[i] == work[i].node
  {
    seq(|work|, i requires 0 <= i < |work| => work[i].node)
  }

  ghost function Pending(g: Graph, inside: set<Title>, work: seq<Visit>): nat {
    if work == [] then 0
    else Max(Explore(g, inside, Nodes(work), work[|work| - 1].rest), Pending(g, inside, work[..|work| - 1]))
  }

  ghost function RoundsLeft(g: Graph, inside: set<Title>, work: seq<Visit>): nat {
    if work == [] then 0
    else Rounds(g, inside, Nodes(work), work[|work| - 1].rest) + RoundsLeft(g, inside, work[..|work| - 1])
  }

  /** Taking one child, and what it leaves to explore. */
  lemma TakeChild(g: Graph, inside: set<Title>, work: seq<Visit>, step: Title)
    requires work != [] && work[|work| - 1].rest != [] && step == work[|work| - 1].rest[0]
    ensures var top := work[|work| - 1];
            var took := work[..|work| - 1] + [Visit(top.node, top.rest[1..])];
            var path := Nodes(work);
            && (step == path[0] ==> Pending(g, inside, work) == Max(Cost(g, path), Pending(g, inside, took))
                                    && RoundsLeft(g, inside, took) < RoundsLeft(g, inside, work))
            && (step != path[0] && !Extends(inside, path, step) ==>
                  Pending(g, inside, work) == Pending(g, inside, took)
                  && RoundsLeft(g, inside, took) < RoundsLeft(g, inside, work))
            && (Extends(inside, path, step) ==>
                  var pushed := took + [Visit(step, Next(g, inside, step))];
                  Pending(g, inside, work) == Pending(g, inside, pushed)
                  && RoundsLeft(g, inside, pushed) < RoundsLeft(g, inside, work))
  {
    var top := work[|work| - 1];
    var took := work[..|work| - 1] + [Visit(top.node, top.rest[1..])];
    var path := Nodes(work);
    assert took[..|took| - 1] == work[..|work| - 1];
    assert Nodes(took) == path;
    if Extends(inside, path, step) {
      var pushed := took + [Visit(step, Next(g, inside, step))];
      assert pushed[..|pushed| - 1] == took;
      assert Nodes(pushed) == path + [step];
    }
  }

  /** A spent top entry had nothing left to explore. */
  lemma DropTop(g: Graph, inside: set<Title>, work: seq<Visit>)
    requires work != [] && work[|work| - 1].rest == []
    ensures Pending(g, inside, work) == Pending(g, inside, work[..|work| - 1])
    ensures RoundsLeft(g, inside, work[..|work| - 1]) < RoundsLeft(g, inside, work)
  {
  }

  /** `seen` and `cost` describe the path on the work list. */
  ghost predicate Tracks(g: Graph, inside: set<Title>, start: Title, work: seq<Visit>, seen: set<Title>, cost: int) {
    && seen == Elements(Nodes(work))
    && Distinct(Nodes(work))
    && cost == Cost(g, Nodes(work))
    && (work != [] ==> work[0].node == start)
    && (forall i, n :: 0 <= i < |work| && n in work[i].rest ==> n in inside)
  }

  lemma PopTracks(g: Graph, inside: set<Title>, start: Title, work: seq<Visit>, seen: set<Title>, cost: int)
    requires Tracks(g, inside, start, work, seen, cost) && work != []
    ensures var top := work[|work| - 1].node;
            Tracks(g, inside, start, work[..|work| - 1], seen - {top}, cost - FrameOf(g, top))
  {
    var nodes := Nodes(work);
    var rest := nodes[..|nodes| - 1];
    assert Nodes(work[..|work| - 1]) == rest;
    assert nodes == rest + [nodes[|nodes| - 1]];
  }

  lemma TakeTracks(g: Graph, inside: set<Title>, start: Title, work: seq<Visit>, seen: set<Title>, cost: int)
    requires Tracks(g, inside, start, work, seen, cost) && work != [] && work[|work| - 1].rest != []
    ensures var top := work[|work| - 1];
            var took := work[..|work| - 1] + [Visit(top.node, top.rest[1..])];
            Tracks(g, inside, start, took, seen, cost) && top.rest[0] in inside && Nodes(work)[0] == start
            && (Extends(inside, Nodes(work), top.rest[0]) <==> top.rest[0] !in seen && top.rest[0] > start)
  {
    var top := work[|work| - 1];
    var took := work[..|work| - 1] + [Visit(top.node, top.rest[1..])];
    assert top.rest[0] in work[|work| - 1].rest;
    assert Nodes(took) == Nodes(work);
  }

  lemma PushTracks(g: Graph, inside: set<Title>, start: Title, work: seq<Visit>, seen: set<Title>, cost: int, step: Title)
    requires Tracks(g, inside, start, work, seen, cost) && work != [] && step !in seen
    ensures Tracks(g, inside, start, work + [Visit(step, Next(g, inside, step))], seen + {step}, cost + FrameOf(g, step))
  {
    var pushed := work + [Visit(step, Next(g, inside, step))];
    var nodes := Nodes(work);
    assert Nodes(pushed) == nodes + [step];
    assert (nodes + [step])[..|nodes|] == nodes;
  }

  lemma StartTracks(g: Graph, inside: set<Title>, start: Title)
    ensures var path := [Visit(start, Next(g, inside, start))];
            && Tracks(g, inside, start, path, {start}, FrameOf(g, start))
            && Pending(g, inside, path) == Explore(g, inside, [start], Next(g, inside, start))
  {
    var path := [Visit(start, Next(g, inside, start))];
    assert Nodes(path) == [start];
    assert [start][..0] == [];
    assert path[..0] == [];
  }

  lemma TrackedCost(g: Graph, inside: set<Title>, start: Title, work: seq<Visit>, seen: set<Title>, cost: int)
    requires Tracks(g, inside, start, work, seen, cost)
    ensures cost == Cost(g, Nodes(work))
  {
  }

  /** Every cycle through `start` as its least member, folded into `found`. */
  method CyclesFrom(g: Graph, inside: set<Title>, start: Title, found: nat) returns (best: nat)
    ensures best == Max(found, Explore(g, inside, [start], Next(g, inside, start)))
  {
    hide Tracks, Explore, Pending, RoundsLeft, Extends, Nodes;
    best := found;
    var path := [Visit(start, Next(g, inside, start))];
    var seen: set<Title> := {start};
    var cost: int := FrameOf(g, start);
    StartTracks(g, inside, start);
    while path != []
      invariant Max(best, Pending(g, inside, path)) == Max(found, Explore(g, inside, [start], Next(g, inside, start)))
      invariant Tracks(g, inside, start, path, seen, cost)
      decreases RoundsLeft(g, inside, path)
    {
      var top := path[|path| - 1];
      if top.rest == [] {
        DropTop(g, inside, path);
        PopTracks(g, inside, start, path, seen, cost);
        path := path[..|path| - 1];
        seen := seen - {top.node};
        cost := cost - FrameOf(g, top.node);
      } else {
        var step := top.rest[0];
        TakeChild(g, inside, path, step);
        TakeTracks(g, inside, start, path, seen, cost);
        TrackedCost(g, inside, start, path, seen, cost);
        path := path[..|path| - 1] + [Visit(top.node, top.rest[1..])];
        if step == start {
          best := Max(best, cost);
        } else if step !in seen && step > start {
          PushTracks(g, inside, start, path, seen, cost, step);
          seen := seen + {step};
          cost := cost + FrameOf(g, step);
          path := path + [Visit(step, Next(g, inside, step))];
        }
      }
    }
    NothingPending(g, inside);
  }

  lemma NothingPending(g: Graph, inside: set<Title>)
    ensures Pending(g, inside, []) == 0
  {
  }

  /** A search from every member bounds every cycle, wherever it starts. */
  lemma SearchedAll(g: Graph, members: seq<Title>, best: nat, c: seq<Title>)
    requires var inside := Elements(members);
             IsCycle(g, inside, c) && forall j :: 0 <= j < |members| ==>
               Explore(g, inside, [members[j]], Next(g, inside, members[j])) <= best
    ensures Cost(g, c) <= best
  {
    var inside := Elements(members);
    var r := LeastFirst(g, inside, c);
    assert r[0] in r && r[0] in inside;
    var j :| 0 <= j < |members| && members[j] == r[0];
    assert r[..1] == [r[0]];
    var after := if 1 < |r| then r[1] else r[0];
    assert after in r && after in Callees(g, r[0]);
    ExploreMissesNothing(g, inside, r, 1, Next(g, inside, r[0]));
  }

  method HeaviestCycle(g: Graph, members: seq<Title>) returns (best: nat)
    ensures IsHeaviest(g, Elements(members), best)
  {
    hide Explore, IsCycle, Cost;
    var inside := Elements(members);
    best := 0;
    for i := 0 to |members|
      invariant best == 0 || exists c :: IsCycle(g, inside, c) && Cost(g, c) == best
      invariant forall j :: 0 <= j < i ==> Explore(g, inside, [members[j]], Next(g, inside, members[j])) <= best
    {
      StartIsTrail(g, inside, members[i]);
      ExploreFindsCycles(g, inside, [members[i]], Next(g, inside, members[i]));
      best := CyclesFrom(g, inside, members[i], best);
    }
    forall c | IsCycle(g, inside, c) ensures Cost(g, c) <= best {
      SearchedAll(g, members, best, c);
    }
  }

  lemma StartIsTrail(g: Graph, inside: set<Title>, start: Title)
    requires start in inside
    ensures IsTrail(g, inside, [start])
  {
  }
}
