/** What recursion takes of a stack (scripts/stack-budget.py): a stack of calls is a simple path with trips round
    simple cycles cut into it, so a limit on the trips bounds it by that many of the heaviest cycles and the path. */
module StackWalks {
  import opened CallGraph
  import opened Tarjan
  import opened StackBudget
  import HC = HeaviestCycle

  /** Where `n` is in `path`, or one past its end. */
  function Place(path: seq<Title>, n: Title): (i: nat)
    ensures i <= |path| && (i < |path| ==> path[i] == n) && (i == |path| ==> n !in path)
  {
    if path == [] || path[0] == n then 0 else 1 + Place(path[1..], n)
  }

  /** The simple path that is left of `path` followed by `walk` when every trip back to a function on it is cut out. */
  function Straight(path: seq<Title>, walk: seq<Title>): seq<Title>
    decreases walk
  {
    if walk == [] then path
    else
      var i := Place(path, walk[0]);
      if i < |path| then Straight(path[..i + 1], walk[1..]) else Straight(path + [walk[0]], walk[1..])
  }

  /** How many of the trips cut out are round one of these components. */
  ghost function Trips(owner: map<Title, nat>, some: set<nat>, path: seq<Title>, walk: seq<Title>): nat
    decreases walk
  {
    if walk == [] then 0
    else
      var i := Place(path, walk[0]);
      if i < |path| then (if OwnerOf(owner, walk[0]) in some then 1 else 0) + Trips(owner, some, path[..i + 1], walk[1..])
      else Trips(owner, some, path + [walk[0]], walk[1..])
  }

  /** What is on the stack of these components. */
  ghost function FramesIn(g: Graph, owner: map<Title, nat>, some: set<nat>, p: seq<Title>): nat {
    if p == [] then 0 else (if OwnerOf(owner, p[0]) in some then FrameOf(g, p[0]) else 0) + FramesIn(g, owner, some, p[1..])
  }

  lemma PartReaches(g: Graph, p: seq<Title>, i: nat, j: nat)
    requires IsPath(g, p) && i <= j < |p|
    ensures Reach(g, p[i], p[j])
  {
    var part := p[i..j + 1];
    forall k, m | 0 <= k && m == k + 1 && m < |part| ensures part[m] in Callees(g, part[k]) {
      assert part[m] == p[i + m] && part[k] == p[i + k];
    }
    assert PathBetween(g, part, p[i], p[j]);
  }

  lemma {:induction false} FramesConcat(g: Graph, owner: map<Title, nat>, some: set<nat>, a: seq<Title>, b: seq<Title>)
    ensures FramesIn(g, owner, some, a + b) == FramesIn(g, owner, some, a) + FramesIn(g, owner, some, b)
  {
    if a == [] {
      assert a + b == b;
    } else {
      assert (a + b)[0] == a[0] && (a + b)[1..] == a[1..] + b;
      FramesConcat(g, owner, some, a[1..], b);
    }
  }

  /** Who owns what, and that each of them is a component. */
  ghost predicate Owned(g: Graph, cs: seq<seq<Title>>, owner: map<Title, nat>) {
    OwnsExactly(cs, owner) && forall k :: 0 <= k < |cs| ==> IsComponent(g, cs[k])
  }

  /** All the functions of one cycle are of one component. */
  lemma OneComponent(g: Graph, cs: seq<seq<Title>>, owner: map<Title, nat>, c: seq<Title>)
    requires Owned(g, cs, owner) && IsPath(g, c) && c[0] in Callees(g, c[|c| - 1]) && c[0] in owner
    ensures forall n :: n in c ==> n in owner && owner[n] == owner[c[0]] && n in cs[owner[n]]
  {
    hide Reach;
    var k := owner[c[0]];
    assert c[0] in cs[k] && IsComponent(g, cs[k]);
    forall n | n in c ensures n in cs[k] {
      var j :| 0 <= j < |c| && c[j] == n;
      PartReaches(g, c, 0, j);
      PartReaches(g, c, j, |c| - 1);
      ReachEdge(g, c[|c| - 1], c[0]);
      ReachTrans(g, n, c[|c| - 1], c[0]);
    }
  }

  lemma {:induction false} FramesOfCycle(g: Graph, owner: map<Title, nat>, some: set<nat>, c: seq<Title>, k: nat)
    requires forall n :: n in c ==> OwnerOf(owner, n) == k
    ensures FramesIn(g, owner, some, c) == if k in some then HC.Cost(g, c) else 0
  {
    if c != [] {
      var init, last := c[..|c| - 1], c[|c| - 1];
      assert c == init + [last] && last in c && forall n :: n in init ==> n in c;
      FramesOfCycle(g, owner, some, init, k);
      FramesConcat(g, owner, some, init, [last]);
      assert [last][1..] == [];
    }
  }

  /** No simple cycle inside one of these components costs more than `level`. */
  ghost predicate CyclesUpTo(g: Graph, cs: seq<seq<Title>>, some: set<nat>, level: nat) {
    forall k, c :: k in some && k < |cs| && HC.IsCycle(g, HC.Elements(cs[k]), c) ==> HC.Cost(g, c) <= level
  }

  /** One trip costs no more than the heaviest cycle of its component. */
  lemma OneTrip(g: Graph, cs: seq<seq<Title>>, owner: map<Title, nat>, some: set<nat>, c: seq<Title>, level: nat)
    requires Owned(g, cs, owner) && CyclesUpTo(g, cs, some, level)
    requires IsPath(g, c) && Distinct(c) && c[0] in Callees(g, c[|c| - 1]) && c[0] in owner
    ensures FramesIn(g, owner, some, c) <= if owner[c[0]] in some then level else 0
  {
    OneComponent(g, cs, owner, c);
    FramesOfCycle(g, owner, some, c, owner[c[0]]);
    assert HC.IsCycle(g, HC.Elements(cs[owner[c[0]]]), c);
  }

  ghost predicate IsWalk(g: Graph, owner: map<Title, nat>, path: seq<Title>, walk: seq<Title>) {
    path != [] && IsPath(g, path + walk) && Distinct(path) && forall n :: n in path + walk ==> n in owner
  }

  /** A call back to a function on the path closes a cycle, and what is above that function is cut off. */
  lemma CutOff(g: Graph, owner: map<Title, nat>, path: seq<Title>, walk: seq<Title>, i: nat)
    requires IsWalk(g, owner, path, walk) && walk != [] && i < |path| && path[i] == walk[0]
    ensures IsWalk(g, owner, path[..i + 1], walk[1..])
    ensures IsPath(g, path[i..]) && Distinct(path[i..]) && path[i] in Callees(g, path[|path| - 1]) && path[i] in owner
    ensures forall n :: n in path[..i + 1] + walk[1..] || n in path[i..] ==> n in path + walk
  {
    var all, less, cycle := path + walk, path[..i + 1] + walk[1..], path[i..];
    assert all[|path|] == walk[0] && all[|path|] in Callees(g, all[|path| - 1]) && all[|path| - 1] == path[|path| - 1];
    assert path[i] in path + walk;
    forall k, m | 0 <= k && m == k + 1 && m < |cycle| ensures cycle[m] in Callees(g, cycle[k]) {
      assert all[i + m] == cycle[m] && all[i + k] == cycle[k];
    }
    forall k, m | 0 <= k && m == k + 1 && m < |less| ensures less[m] in Callees(g, less[k]) {
      if m <= i {
        assert all[m] == less[m] && all[k] == less[k];
      } else {
        assert less[m] == all[|path| + m - i] && less[k] == all[|path| + k - i];
      }
    }
  }

  lemma MoveOn(g: Graph, owner: map<Title, nat>, path: seq<Title>, walk: seq<Title>)
    requires IsWalk(g, owner, path, walk) && walk != [] && walk[0] !in path
    ensures IsWalk(g, owner, path + [walk[0]], walk[1..]) && path + [walk[0]] + walk[1..] == path + walk
  {
    assert path + [walk[0]] + walk[1..] == path + walk;
  }

  /** What a stack of calls takes in these components is no more than its trips there, each at the heaviest level,
      and the simple path left of it. */
  lemma {:induction false} TripsAndPath(g: Graph, cs: seq<seq<Title>>, owner: map<Title, nat>, some: set<nat>,
                                        path: seq<Title>, walk: seq<Title>, level: nat)
    requires Owned(g, cs, owner) && CyclesUpTo(g, cs, some, level) && IsWalk(g, owner, path, walk)
    ensures FramesIn(g, owner, some, path + walk) <= Trips(owner, some, path, walk) * level + FramesIn(g, owner, some, Straight(path, walk))
    ensures IsPath(g, Straight(path, walk)) && Distinct(Straight(path, walk)) && Straight(path, walk) != [] && Straight(path, walk)[0] == path[0]
    decreases walk
  {
    hide IsPath, Owned, CyclesUpTo, FramesIn, IsWalk;
    WalkIsPath(g, owner, path, walk);
    if walk == [] {
      assert path + walk == path;
    } else {
      var i := Place(path, walk[0]);
      if i < |path| {
        OneCut(g, cs, owner, some, path, walk, level, i);
        TripsAndPath(g, cs, owner, some, path[..i + 1], walk[1..], level);
        OneMore(Trips(owner, some, path[..i + 1], walk[1..]), level);
      } else {
        MoveOn(g, owner, path, walk);
        TripsAndPath(g, cs, owner, some, path + [walk[0]], walk[1..], level);
      }
    }
  }

  lemma OneMore(trips: nat, level: nat)
    ensures (1 + trips) * level == level + trips * level && (0 + trips) * level == trips * level
  {
  }

  lemma WalkIsPath(g: Graph, owner: map<Title, nat>, path: seq<Title>, walk: seq<Title>)
    requires IsWalk(g, owner, path, walk)
    ensures path != [] && (walk == [] ==> IsPath(g, path) && Distinct(path))
  {
    if walk == [] { assert path + walk == path; }
  }

  lemma OneCut(g: Graph, cs: seq<seq<Title>>, owner: map<Title, nat>, some: set<nat>,
               path: seq<Title>, walk: seq<Title>, level: nat, i: nat)
    requires Owned(g, cs, owner) && CyclesUpTo(g, cs, some, level) && IsWalk(g, owner, path, walk)
    requires walk != [] && i < |path| && path[i] == walk[0]
    ensures IsWalk(g, owner, path[..i + 1], walk[1..])
    ensures FramesIn(g, owner, some, path + walk) <= FramesIn(g, owner, some, path[..i + 1] + walk[1..])
                                                     + if OwnerOf(owner, walk[0]) in some then level else 0
  {
    hide IsPath, Owned, FramesIn, CyclesUpTo, Callees, IsWalk, Distinct;
    CutOff(g, owner, path, walk, i);
    var cycle := path[i..];
    OneTrip(g, cs, owner, some, cycle, level);
    assert path + walk == path[..i] + cycle + ([walk[0]] + walk[1..]);
    assert path[..i + 1] + walk[1..] == path[..i] + ([walk[0]] + walk[1..]);
    FramesWithout(g, owner, some, path[..i], cycle, [walk[0]] + walk[1..]);
  }

  lemma FramesWithout(g: Graph, owner: map<Title, nat>, some: set<nat>, a: seq<Title>, b: seq<Title>, c: seq<Title>)
    ensures FramesIn(g, owner, some, a + b + c) == FramesIn(g, owner, some, a + c) + FramesIn(g, owner, some, b)
  {
    FramesConcat(g, owner, some, a + b, c);
    FramesConcat(g, owner, some, a, b);
    FramesConcat(g, owner, some, a, c);
  }

  // ----- Recursions of one sort, among those a stack passes -----

  /** The components among these whose recursion the nesting limit bounds. */
  ghost function Deep(d: Dag, q: seq<nat>): set<nat> { set k | k in q && SortOf(d, k) == ByDepth }

  ghost predicate AllPassed(owner: map<Title, nat>, q: seq<nat>, p: seq<Title>) { forall n :: n in p ==> OwnerOf(owner, n) in q }

  lemma {:induction false} PassedBy(owner: map<Title, nat>, p: seq<Title>, n: Title)
    requires n in p
    ensures OwnerOf(owner, n) in Passes(owner, p)
  {
    if p[0] != n { PassedBy(owner, p[1..], n); }
  }

  lemma {:induction false} DeepFrames(g: Graph, owner: map<Title, nat>, d: Dag, q: seq<nat>, p: seq<Title>)
    requires AllPassed(owner, q, p)
    ensures Frames(g, owner, d, ByDepth, p) == FramesIn(g, owner, Deep(d, q), p)
  {
    if p != [] {
      assert p[0] in p && forall n :: n in p[1..] ==> n in p;
      DeepFrames(g, owner, d, q, p[1..]);
    }
  }

  lemma WholeWalk(g: Graph, names: map<Title, Name>, rules: Rules, roots: seq<Title>, cs: seq<seq<Title>>, owner: map<Title, nat>, d: Dag, p: seq<Title>)
    requires IsCosted(g, names, rules, roots, cs, owner, d) && IsPath(g, p) && p[0] in roots
    ensures Owned(g, cs, owner) && IsWalk(g, owner, [p[0]], p[1..]) && AllPassed(owner, Passes(owner, p), p)
    ensures |d.kinds| == |cs| && forall k :: 0 <= k < |cs| ==> cs[k] != [] && IsKind(g, names, rules, cs[k], d.kinds[k])
    ensures forall k :: k in Passes(owner, p) ==> k < |cs|
  {
    hide IsKind, IsComponent, Callees;
    NotEmpty(g, roots, cs);
    OwnedInRange(cs, owner);
    assert [p[0]] + p[1..] == p;
    forall n | n in p ensures n in owner && OwnerOf(owner, n) in Passes(owner, p) {
      var i :| 0 <= i < |p| && p[i] == n;
      OnStackIsOwned(g, roots, cs, owner, p, i);
      PassedBy(owner, p, n);
    }
    forall k | k in Passes(owner, p) ensures k < |cs| {
      var n := PassedFor(owner, p, k);
    }
  }

  lemma {:induction false} PassedFor(owner: map<Title, nat>, p: seq<Title>, k: nat) returns (n: Title)
    requires k in Passes(owner, p)
    ensures n in p && OwnerOf(owner, n) == k
  {
    if OwnerOf(owner, p[0]) == k { n := p[0]; } else { n := PassedFor(owner, p[1..], k); }
  }

  /** The levels of the recursions the nesting limit bounds are their heaviest cycles. */
  lemma DeepCycles(g: Graph, names: map<Title, Name>, rules: Rules, cs: seq<seq<Title>>, d: Dag, q: seq<nat>)
    requires |d.kinds| == |cs| && forall k :: 0 <= k < |cs| ==> cs[k] != [] && IsKind(g, names, rules, cs[k], d.kinds[k])
    ensures CyclesUpTo(g, cs, Deep(d, q), Heaviest(d, q))
  {
    hide Heaviest, HC.IsCycle, HC.Cost;
    forall k, c | k in Deep(d, q) && k < |cs| && HC.IsCycle(g, HC.Elements(cs[k]), c) ensures HC.Cost(g, c) <= Heaviest(d, q) {
      assert IsKind(g, names, rules, cs[k], d.kinds[k]);
      assert HeaviestOf(g, cs[k], d.kinds[k].level);
      HeaviestAtLeast(d, q, k);
    }
  }

  /** So recursion stays inside what the report allows it, if the trips of a stack are no more than the nesting limit
      allows and the simple path left of it takes no more than one level, or than the levels the limit leaves unused. */
  lemma NestingBounds(g: Graph, names: map<Title, Name>, rules: Rules, roots: seq<Title>, cs: seq<seq<Title>>, owner: map<Title, nat>,
                      d: Dag, depth: nat, p: seq<Title>)
    requires IsCosted(g, names, rules, roots, cs, owner, d) && IsPath(g, p) && p[0] in roots
    requires var q := Passes(owner, p);
             Trips(owner, Deep(d, q), [p[0]], p[1..]) * Heaviest(d, q) + FramesIn(g, owner, Deep(d, q), Straight([p[0]], p[1..]))
             <= (depth + 1) * Heaviest(d, q)
    ensures Frames(g, owner, d, ByDepth, p) <= (depth + 1) * Heaviest(d, Passes(owner, p))
  {
    hide IsCosted, Passes, Heaviest, Trips, Straight, Owned, IsWalk, FramesIn, Deep, AllPassed, CyclesUpTo, IsKind, Frames;
    var q := Passes(owner, p);
    WholeWalk(g, names, rules, roots, cs, owner, d, p);
    DeepCycles(g, names, rules, cs, d, q);
    DeepFrames(g, owner, d, q, p);
    assert [p[0]] + p[1..] == p;
    TripsAndPath(g, cs, owner, Deep(d, q), [p[0]], p[1..], Heaviest(d, q));
  }

  // ----- Recursions that a size rule bounds -----

  /** The stack makes fewer trips round this component than the first size rule its names match allows levels, and
      what the simple path takes there is no more than a trip. */
  ghost predicate SizeKept(g: Graph, names: map<Title, Name>, rules: Rules, c: seq<Title>, owner: map<Title, nat>, k: nat, p: seq<Title>)
    requires p != []
  {
    exists levels: nat, h: nat :: FirstRule(names, rules.sizeBounded, c, levels) && HeaviestOf(g, c, h)
                                  && Trips(owner, {k}, [p[0]], p[1..]) < levels
                                  && FramesIn(g, owner, {k}, Straight([p[0]], p[1..])) <= h
  }

  ghost predicate SizesKept(g: Graph, names: map<Title, Name>, rules: Rules, cs: seq<seq<Title>>, owner: map<Title, nat>, d: Dag, p: seq<Title>)
    requires p != []
  {
    forall k :: k in Passes(owner, p) && k < |cs| && SortOf(d, k) == BySize ==> SizeKept(g, names, rules, cs[k], owner, k, p)
  }

  lemma HeaviestIsOne(g: Graph, c: seq<Title>, a: nat, b: nat)
    requires HeaviestOf(g, c, a) && HeaviestOf(g, c, b)
    ensures a == b
  {
    hide HC.IsCycle, HC.Cost;
  }

  /** What a recursion bounded by size is costed at. */
  lemma SizedCost(g: Graph, names: map<Title, Name>, rules: Rules, c: seq<Title>, kind: Kind, levels: nat, h: nat)
    requires c != [] && IsKind(g, names, rules, c, kind) && kind.Sized?
    requires FirstRule(names, rules.sizeBounded, c, levels) && HeaviestOf(g, c, h)
    ensures kind.cost == levels * h
  {
    hide FirstRule, HeaviestOf;
    var l: nat, w: nat :| FirstRule(names, rules.sizeBounded, c, l) && HeaviestOf(g, c, w) && kind == Sized(l * w);
    FirstRuleIsOne(names, rules.sizeBounded, c, l, levels);
    HeaviestIsOne(g, c, w, h);
  }

  /** A recursion bounded by size takes no more of a stack that keeps to its levels than it is costed at. */
  lemma SizedFits(g: Graph, names: map<Title, Name>, rules: Rules, cs: seq<seq<Title>>, owner: map<Title, nat>, d: Dag, p: seq<Title>, k: nat)
    requires Owned(g, cs, owner) && p != [] && IsWalk(g, owner, [p[0]], p[1..]) && k < |cs| == |d.kinds|
    requires cs[k] != [] && IsKind(g, names, rules, cs[k], d.kinds[k]) && SortOf(d, k) == BySize
    requires SizeKept(g, names, rules, cs[k], owner, k, p)
    ensures FramesIn(g, owner, {k}, p) <= d.Kind(k).Own()
  {
    hide FirstRule, HeaviestOf, Trips, Straight, FramesIn, Owned, IsWalk, IsKind, CyclesUpTo;
    var levels: nat, h: nat :| FirstRule(names, rules.sizeBounded, cs[k], levels) && HeaviestOf(g, cs[k], h)
                               && Trips(owner, {k}, [p[0]], p[1..]) < levels
                               && FramesIn(g, owner, {k}, Straight([p[0]], p[1..])) <= h;
    var trips := Trips(owner, {k}, [p[0]], p[1..]);
    SizedCost(g, names, rules, cs[k], d.kinds[k], levels, h);
    HeaviestCovers(g, cs, k, h);
    assert [p[0]] + p[1..] == p;
    TripsAndPath(g, cs, owner, {k}, [p[0]], p[1..], h);
    OneMore(trips, h);
    MulMonotone(trips + 1, levels, h);
  }

  lemma HeaviestCovers(g: Graph, cs: seq<seq<Title>>, k: nat, h: nat)
    requires k < |cs| && HeaviestOf(g, cs[k], h)
    ensures CyclesUpTo(g, cs, {k}, h)
  {
    hide HC.IsCycle, HC.Cost;
  }

  /** What is on the stack of these components, one after the other. */
  ghost function SumIn(g: Graph, owner: map<Title, nat>, d: Dag, q: seq<nat>, p: seq<Title>): nat {
    if q == [] then 0
    else (if SortOf(d, q[0]) == BySize then FramesIn(g, owner, {q[0]}, p) else 0) + SumIn(g, owner, d, q[1..], p)
  }

  lemma {:induction false} SumOfOneMore(g: Graph, owner: map<Title, nat>, d: Dag, q: seq<nat>, p: seq<Title>)
    requires p != []
    ensures SumIn(g, owner, d, q, p) == SumIn(g, owner, d, q, p[1..]) + SumIn(g, owner, d, q, [p[0]])
    ensures OwnerOf(owner, p[0]) in q && SortOf(d, OwnerOf(owner, p[0])) == BySize ==> SumIn(g, owner, d, q, [p[0]]) >= FrameOf(g, p[0])
  {
    assert [p[0]][1..] == [];
    if q != [] {
      assert FramesIn(g, owner, {q[0]}, p) == FramesIn(g, owner, {q[0]}, [p[0]]) + FramesIn(g, owner, {q[0]}, p[1..]) by {
        assert [p[0]] + p[1..] == p;
        FramesConcat(g, owner, {q[0]}, [p[0]], p[1..]);
      }
      SumOfOneMore(g, owner, d, q[1..], p);
    }
  }

  lemma {:induction false} SizedAddUp(g: Graph, owner: map<Title, nat>, d: Dag, q: seq<nat>, p: seq<Title>)
    requires AllPassed(owner, q, p)
    ensures Frames(g, owner, d, BySize, p) <= SumIn(g, owner, d, q, p)
  {
    if p != [] {
      assert p[0] in p && forall n :: n in p[1..] ==> n in p;
      SizedAddUp(g, owner, d, q, p[1..]);
      SumOfOneMore(g, owner, d, q, p);
    }
  }

  lemma {:induction false} EachFits(g: Graph, owner: map<Title, nat>, d: Dag, q: seq<nat>, p: seq<Title>)
    requires forall k :: k in q && SortOf(d, k) == BySize ==> FramesIn(g, owner, {k}, p) <= d.Kind(k).Own()
    ensures SumIn(g, owner, d, q, p) <= OwnOf(d, BySize, q)
  {
    if q != [] { EachFits(g, owner, d, q[1..], p); }
  }

  /** So all of them together take no more than they were costed at. */
  lemma SizesBound(g: Graph, names: map<Title, Name>, rules: Rules, roots: seq<Title>, cs: seq<seq<Title>>, owner: map<Title, nat>, d: Dag, p: seq<Title>)
    requires IsCosted(g, names, rules, roots, cs, owner, d) && IsPath(g, p) && p[0] in roots
    requires SizesKept(g, names, rules, cs, owner, d, p)
    ensures Frames(g, owner, d, BySize, p) <= OwnOf(d, BySize, Passes(owner, p))
  {
    hide IsCosted, Passes, FramesIn, Owned, IsWalk, AllPassed, SizeKept, IsKind, Frames, SumIn, OwnOf;
    var q := Passes(owner, p);
    WholeWalk(g, names, rules, roots, cs, owner, d, p);
    forall k | k in q && SortOf(d, k) == BySize ensures FramesIn(g, owner, {k}, p) <= d.Kind(k).Own() {
      SizedFits(g, names, rules, cs, owner, d, p, k);
    }
    SizedAddUp(g, owner, d, q, p);
    EachFits(g, owner, d, q, p);
  }

  // ----- That cost is reached -----

  /** So many laps of one cycle. */
  ghost function Laps(c: seq<Title>, laps: nat): seq<Title> { if laps == 0 then [] else c + Laps(c, laps - 1) }

  lemma {:induction false} LapsPath(g: Graph, c: seq<Title>, laps: nat)
    requires IsPath(g, c) && c[0] in Callees(g, c[|c| - 1]) && laps > 0
    ensures IsPath(g, Laps(c, laps)) && Laps(c, laps)[0] == c[0] && forall n :: n in Laps(c, laps) ==> n in c
  {
    if laps == 1 {
      assert Laps(c, 1) == c + [] == c;
    } else {
      LapsPath(g, c, laps - 1);
    }
  }

  lemma {:induction false} LapsFrames(g: Graph, owner: map<Title, nat>, k: nat, c: seq<Title>, laps: nat)
    requires forall n :: n in c ==> OwnerOf(owner, n) == k
    ensures FramesIn(g, owner, {k}, Laps(c, laps)) == laps * HC.Cost(g, c)
  {
    if laps > 0 {
      LapsFrames(g, owner, k, c, laps - 1);
      FramesConcat(g, owner, {k}, c, Laps(c, laps - 1));
      FramesOfCycle(g, owner, {k}, c, k);
      OneMore(laps - 1, HC.Cost(g, c));
    }
  }

  /** The rest of a lap makes no trip. */
  lemma {:induction false} RestOfLap(owner: map<Title, nat>, some: set<nat>, c: seq<Title>, i: nat, rest: seq<Title>)
    requires Distinct(c) && 1 <= i <= |c|
    ensures Straight(c[..i], c[i..] + rest) == Straight(c, rest)
    ensures Trips(owner, some, c[..i], c[i..] + rest) == Trips(owner, some, c, rest)
    decreases |c| - i
  {
    if i == |c| {
      assert c[..i] == c && c[i..] + rest == rest;
    } else {
      var walk := c[i..] + rest;
      assert walk[0] == c[i] && walk[1..] == c[i + 1..] + rest && c[..i] + [c[i]] == c[..i + 1];
      assert c[i] !in c[..i];
      RestOfLap(owner, some, c, i + 1, rest);
    }
  }

  /** Every lap but the first is one trip, and one lap is what is left. */
  lemma {:induction false} LapsTrips(owner: map<Title, nat>, k: nat, c: seq<Title>, more: nat)
    requires Distinct(c) && c != [] && OwnerOf(owner, c[0]) == k
    ensures Straight([c[0]], c[1..] + Laps(c, more)) == c && Trips(owner, {k}, [c[0]], c[1..] + Laps(c, more)) == more
  {
    assert c[..1] == [c[0]];
    RestOfLap(owner, {k}, c, 1, Laps(c, more));
    if more > 0 {
      var rest := Laps(c, more);
      assert rest == c + Laps(c, more - 1) && rest[0] == c[0] && rest[1..] == c[1..] + Laps(c, more - 1);
      assert Place(c, c[0]) == 0 && c[..0 + 1] == [c[0]];
      LapsTrips(owner, k, c, more - 1);
    }
  }

  /** A recursion bounded by size is costed at no more than it can take: some stack that keeps to its levels takes it all. */
  lemma SizedIsReached(g: Graph, names: map<Title, Name>, rules: Rules, cs: seq<seq<Title>>, owner: map<Title, nat>, d: Dag, k: nat)
    requires Owned(g, cs, owner) && k < |cs| == |d.kinds| && cs[k] != []
    requires IsKind(g, names, rules, cs[k], d.kinds[k]) && d.kinds[k].Sized? && d.kinds[k].cost > 0
    ensures exists p :: IsPath(g, p) && SizeKept(g, names, rules, cs[k], owner, k, p) && FramesIn(g, owner, {k}, p) == d.Kind(k).Own()
  {
    hide FirstRule, IsPath, FramesIn, Trips, Straight, Callees, HC.Cost;
    var levels: nat, h: nat :| FirstRule(names, rules.sizeBounded, cs[k], levels) && HeaviestOf(g, cs[k], h) && d.kinds[k] == Sized(levels * h);
    assert levels > 0 && h > 0;
    var c :| HC.IsCycle(g, HC.Elements(cs[k]), c) && HC.Cost(g, c) == h;
    InsideIsOwned(cs, owner, k, c);
    var p := Laps(c, levels);
    LapsPath(g, c, levels);
    LapsFrames(g, owner, k, c, levels);
    CycleFirst(g, c);
    LapsTrips(owner, k, c, levels - 1);
    FramesOfCycle(g, owner, {k}, c, k);
    assert p == c + Laps(c, levels - 1) && [p[0]] == [c[0]] && p[1..] == c[1..] + Laps(c, levels - 1);
  }

  lemma CycleFirst(g: Graph, c: seq<Title>)
    requires IsPath(g, c)
    ensures c != [] && c[0] in c
  {
  }

  lemma InsideIsOwned(cs: seq<seq<Title>>, owner: map<Title, nat>, k: nat, c: seq<Title>)
    requires OwnsExactly(cs, owner) && k < |cs| && HC.Inside(c, HC.Elements(cs[k]))
    ensures forall n :: n in c ==> OwnerOf(owner, n) == k
  {
  }

  // ----- The promise -----

  /** A report without a problem bounds every stack of calls that keeps to the nesting limit, and to the levels of
      the size rules, in this sense. */
  lemma NestedStackFits(g: Graph, names: map<Title, Name>, unbounded: set<Title>, rules: Rules, depth: nat, roots: seq<Title>, parses: bool,
                        m: Measured, cs: seq<seq<Title>>, owner: map<Title, nat>, d: Dag, p: seq<Title>)
    requires IsReport(g, names, unbounded, rules, depth, roots, parses, m, cs, owner, d)
    requires m.problems == [] && ReplacedAreHarmless(d, roots, owner)
    requires IsPath(g, p) && p[0] in roots
    requires SizesKept(g, names, rules, cs, owner, d, p)
    requires var deep := Deep(d, Passes(owner, p));
             && Trips(owner, deep, [p[0]], p[1..]) <= depth
             && FramesIn(g, owner, deep, Straight([p[0]], p[1..])) <= Heaviest(d, Passes(owner, p))
    ensures Total(g, p) <= HC.Max(m.Worst(depth), m.otherRest)
  {
    hide IsCosted, WithinBudget, Attained, ReplacedAreHarmless, Trips, Straight, Passes, Heaviest, Frames, OwnOf, IsProblem, ReportsOnce;
    hide SizesKept, Deep, FramesIn;
    var trips := Trips(owner, Deep(d, Passes(owner, p)), [p[0]], p[1..]);
    MulMonotone(trips, depth, Heaviest(d, Passes(owner, p)));
    OneMore(depth, Heaviest(d, Passes(owner, p)));
    NestingBounds(g, names, rules, roots, cs, owner, d, depth, p);
    SizesBound(g, names, rules, roots, cs, owner, d, p);
    ReportedStackFits(g, names, unbounded, rules, depth, roots, parses, m, cs, owner, d, p);
  }

  // ----- A path that outweighs every cycle -----

  /** Three functions in a row, each calling its neighbours. */
  function Row(): Graph { Graph(map[0 := 1, 1 := 1, 2 := 1], map[0 := {1}, 1 := {0, 2}, 2 := {1}]) }

  lemma CyclesAreShort(c: seq<Title>)
    requires HC.IsCycle(Row(), {0, 1, 2}, c)
    ensures HC.Cost(Row(), c) <= 2
  {
    assert forall i :: 0 <= i < |c| ==> c[i] in c;
    assert |c| > 1 ==> c[1] in Callees(Row(), c[0]);
    assert |c| > 2 ==> c[2] in Callees(Row(), c[1]);
    assert |c| < 3;
    CostOfShort(c);
  }

  lemma CostOfShort(c: seq<Title>)
    requires |c| < 3 && forall n :: n in c ==> FrameOf(Row(), n) == 1
    ensures HC.Cost(Row(), c) == |c|
  {
    if |c| > 0 {
      var init := c[..|c| - 1];
      assert c[|c| - 1] in c && forall n :: n in init ==> n in c;
      CostOfShort(init);
    }
  }

  /** The heaviest cycle costs 2, and a stack of calls that makes no trip at all takes 3. */
  lemma PathOutweighsCycles(level: nat)
    requires HC.IsHeaviest(Row(), {0, 1, 2}, level)
    ensures level == 2 && IsPath(Row(), [0, 1, 2]) && Straight([0], [1, 2]) == [0, 1, 2] && Total(Row(), [0, 1, 2]) == 3
  {
    HeaviestIsTwo(level);
    StraightOn();
    hide HC.IsCycle, HC.Cost, Straight;
    assert [1, 2][1..] == [2] && [2][1..] == [];
    assert [0, 1, 2][1..] == [1, 2];
  }

  lemma HeaviestIsTwo(level: nat)
    requires HC.IsHeaviest(Row(), {0, 1, 2}, level)
    ensures level == 2
  {
    var c := [0, 1];
    assert HC.IsCycle(Row(), {0, 1, 2}, c);
    CostOfShort(c);
    if worst :| HC.IsCycle(Row(), {0, 1, 2}, worst) && HC.Cost(Row(), worst) == level { CyclesAreShort(worst); }
  }

  lemma StraightOn()
    ensures Straight([0], [1, 2]) == [0, 1, 2]
  {
    assert [1, 2][1..] == [2] && [2][1..] == [] && [0] + [1] == [0, 1] && [0, 1] + [2] == [0, 1, 2];
    assert Place([0], 1) == 1 && Place([0, 1], 2) == 2;
  }
}
