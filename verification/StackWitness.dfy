/** Three recursions on which the stack checker (scripts/stack-budget.py) finds nothing wrong, and
    whose deepest chain spends more than it reports. */
module StackWitness {
  import opened CallGraph
  import opened Tarjan
  import opened StackBudget
  import HC = HeaviestCycle

  const HEAVY: Title := 0
  const LIGHT: Title := 1
  const PARSER: Title := 2

  /** The light recursion calls the heavy one, and that the parser. */
  function Calls(): Graph {
    Graph(map[HEAVY := 9, LIGHT := 3, PARSER := 3], map[HEAVY := {HEAVY, PARSER}, LIGHT := {LIGHT, HEAVY}, PARSER := {PARSER}])
  }

  /** The first two share their label. */
  function Labels(): map<Title, Name> { map[HEAVY := 5, LIGHT := 5, PARSER := 6] }

  function Judge(): Rules { Rules([], name => true, name => name == 6, 6) }

  // ----- The components, in the only order there is -----

  lemma ParserStays(n: Title)
    requires Reach(Calls(), PARSER, n)
    ensures n == PARSER
  {
    ReachStaysIn(Calls(), {PARSER}, PARSER, n);
  }

  lemma HeavyStays(n: Title)
    requires Reach(Calls(), HEAVY, n)
    ensures n == PARSER || n == HEAVY
  {
    ReachStaysIn(Calls(), {HEAVY, PARSER}, HEAVY, n);
  }

  lemma LightStays(n: Title)
    requires Reach(Calls(), LIGHT, n)
    ensures n == PARSER || n == HEAVY || n == LIGHT
  {
    ReachStaysIn(Calls(), {HEAVY, PARSER, LIGHT}, LIGHT, n);
  }

  lemma AllReached()
    ensures Reach(Calls(), LIGHT, LIGHT) && Reach(Calls(), LIGHT, HEAVY) && Reach(Calls(), LIGHT, PARSER)
  {
    ReachSelf(Calls(), LIGHT);
    ReachEdge(Calls(), LIGHT, HEAVY);
    ReachEdge(Calls(), HEAVY, PARSER);
    ReachTrans(Calls(), LIGHT, HEAVY, PARSER);
  }

  lemma ComponentsAreSingle(c: seq<Title>)
    requires IsComponent(Calls(), c) && c[0] in {HEAVY, LIGHT, PARSER}
    ensures |c| == 1
  {
    hide Reach;
    if |c| > 1 {
      assert c[0] in c && c[1] in c && c[0] != c[1];
      assert Reach(Calls(), c[0], c[1]) && Reach(Calls(), c[1], c[0]);
      Unrelated(c[0], c[1]);
    }
  }

  lemma Unrelated(u: Title, w: Title)
    requires u in {HEAVY, LIGHT, PARSER} && Reach(Calls(), u, w) && Reach(Calls(), w, u)
    ensures u == w
  {
    hide Reach;
    if u == PARSER { ParserStays(w); } else if u == HEAVY { HeavyStays(w); } else { LightStays(w); }
    if w == PARSER { ParserStays(u); } else if w == HEAVY { HeavyStays(u); } else { LightStays(u); }
  }

  lemma FromLight(n: Title)
    ensures RootReaches(Calls(), [LIGHT], n) <==> n in {HEAVY, LIGHT, PARSER}
  {
    hide Reach;
    AllReached();
    assert LIGHT in [LIGHT];
    if RootReaches(Calls(), [LIGHT], n) {
      var r :| r in [LIGHT] && Reach(Calls(), r, n);
      LightStays(n);
    }
  }

  ghost predicate Before(cs: seq<seq<Title>>, u: Title, w: Title) {
    exists i, j :: 0 <= i < j < |cs| && cs[i] == [u] && cs[j] == [w]
  }

  lemma EmittedAlone(cs: seq<seq<Title>>)
    requires IsCondensation(Calls(), [LIGHT], cs)
    ensures forall k :: 0 <= k < |cs| ==> cs[k] in {[HEAVY], [LIGHT], [PARSER]}
    ensures forall n :: n in {HEAVY, LIGHT, PARSER} ==> Emitted(cs, n)
  {
    hide Reach, CalleesFirst, PairwiseDisjoint, RootReaches;
    forall n ensures Emitted(cs, n) <==> n in {HEAVY, LIGHT, PARSER} { FromLight(n); }
    forall k | 0 <= k < |cs| ensures cs[k] in {[HEAVY], [LIGHT], [PARSER]} {
      assert IsComponent(Calls(), cs[k]) && cs[k][0] in cs[k] && Emitted(cs, cs[k][0]);
      ComponentsAreSingle(cs[k]);
      assert cs[k] == [cs[k][0]];
    }
  }

  lemma CalleeBefore(cs: seq<seq<Title>>, u: Title, w: Title)
    requires CalleesFirst(Calls(), cs) && u != w && w in Callees(Calls(), u) && Emitted(cs, u)
    requires forall k :: 0 <= k < |cs| ==> cs[k] in {[HEAVY], [LIGHT], [PARSER]}
    ensures Before(cs, w, u)
  {
    var j :| 0 <= j < |cs| && u in cs[j];
    assert cs[j] == [u];
    assert EmittedBy(cs, j, w);
    var i :| 0 <= i <= j && i < |cs| && w in cs[i];
    assert cs[i] == [w];
  }

  lemma OnlyOrder(cs: seq<seq<Title>>)
    requires IsCondensation(Calls(), [LIGHT], cs)
    ensures cs == [[PARSER], [HEAVY], [LIGHT]]
  {
    hide IsComponent, RootReaches, Emitted;
    EmittedAlone(cs);
    CalleeBefore(cs, HEAVY, PARSER);
    CalleeBefore(cs, LIGHT, HEAVY);
    var p, h :| 0 <= p < h < |cs| && cs[p] == [PARSER] && cs[h] == [HEAVY];
    var h', l :| 0 <= h' < l < |cs| && cs[h'] == [HEAVY] && cs[l] == [LIGHT];
    forall i, j | 0 <= i < |cs| && 0 <= j < |cs| && cs[i] == cs[j] ensures i == j {
      assert cs[i][0] in cs[i] && cs[j][0] in cs[j];
    }
    assert cs[h] == cs[h'] && h == h';
    ThreePlaces(cs, p, h, l);
  }

  lemma ThreePlaces(cs: seq<seq<Title>>, p: nat, h: nat, l: nat)
    requires p < h < l < |cs| && cs[p] == [PARSER] && cs[h] == [HEAVY] && cs[l] == [LIGHT]
    requires forall k :: 0 <= k < |cs| ==> cs[k] in {[HEAVY], [LIGHT], [PARSER]}
    requires forall i, j :: 0 <= i < |cs| && 0 <= j < |cs| && cs[i] == cs[j] ==> i == j
    ensures cs == [[PARSER], [HEAVY], [LIGHT]]
  {
    PlaceIs(cs, p, h, l, 0);
    PlaceIs(cs, p, h, l, 1);
    PlaceIs(cs, p, h, l, 2);
    if |cs| > 3 { PlaceIs(cs, p, h, l, 3); }
  }

  lemma PlaceIs(cs: seq<seq<Title>>, p: nat, h: nat, l: nat, k: nat)
    requires p < h < l < |cs| && cs[p] == [PARSER] && cs[h] == [HEAVY] && cs[l] == [LIGHT] && k < |cs|
    requires forall k :: 0 <= k < |cs| ==> cs[k] in {[HEAVY], [LIGHT], [PARSER]}
    requires forall i, j :: 0 <= i < |cs| && 0 <= j < |cs| && cs[i] == cs[j] ==> i == j
    ensures k == p || k == h || k == l
  {
    assert cs[k] == cs[p] || cs[k] == cs[h] || cs[k] == cs[l];
  }

  // ----- What each is costed -----

  lemma OneCycle(n: Title, level: nat)
    requires n in {HEAVY, LIGHT, PARSER} && HC.IsHeaviest(Calls(), {n}, level)
    ensures level == FrameOf(Calls(), n)
  {
    assert HC.IsCycle(Calls(), {n}, [n]) by {
      assert IsPath(Calls(), [n]) && Distinct([n]);
    }
    OneCost(n);
    if c :| HC.IsCycle(Calls(), {n}, c) && HC.Cost(Calls(), c) == level {
      assert c == [n] by { OneMember(c, n); }
    }
  }

  lemma OneCost(n: Title)
    ensures HC.Cost(Calls(), [n]) == FrameOf(Calls(), n)
  {
    assert [n][..0] == [];
  }

  lemma OneMember(c: seq<Title>, n: Title)
    requires HC.IsCycle(Calls(), {n}, c)
    ensures c == [n]
  {
    assert c[0] in c;
    assert forall i :: 0 <= i < |c| ==> c[i] in c;
  }

  lemma OneKind(n: Title, kind: Kind)
    requires n in {HEAVY, LIGHT, PARSER} && IsKind(Calls(), Labels(), Judge(), [n], kind)
    ensures kind == Bounded(FrameOf(Calls(), n), NameOf(Labels(), n), n == PARSER)
  {
    hide HC.IsHeaviest;
    assert HC.Elements([n]) == {n};
    assert n in [n] && [n][0] == n && n in Callees(Calls(), n);
    assert Recursive(Calls(), [n]);
    SizedLevelsIs(Labels(), [], [n]);
    assert HeaviestOf(Calls(), [n], kind.level);
    OneCycle(n, kind.level);
  }

  // ----- The report, whichever there is -----

  function Kinds(): seq<Kind> { [Bounded(3, 6, true), Bounded(9, 5, false), Bounded(3, 5, false)] }

  lemma KindsAre(cs: seq<seq<Title>>, owner: map<Title, nat>, d: Dag)
    requires IsCosted(Calls(), Labels(), Judge(), [LIGHT], cs, owner, d)
    ensures d.kinds == Kinds() && owner == map[PARSER := 0, HEAVY := 1, LIGHT := 2] && d.links == [{}, {0}, {1}]
  {
    hide IsCondensation, IsKind;
    OnlyOrder(cs);
    assert PARSER in cs[0] && HEAVY in cs[1] && LIGHT in cs[2];
    assert owner == map[PARSER := 0, HEAVY := 1, LIGHT := 2];
    OneKind(PARSER, d.kinds[0]);
    OneKind(HEAVY, d.kinds[1]);
    OneKind(LIGHT, d.kinds[2]);
    assert Callees(Calls(), HEAVY) == {HEAVY, PARSER} && Callees(Calls(), LIGHT) == {LIGHT, HEAVY} && Callees(Calls(), PARSER) == {PARSER};
    assert d.links[0] == Links(Calls(), cs, owner, 0) == {};
    LinkIs(cs, owner, HEAVY, PARSER);
    LinkIs(cs, owner, LIGHT, HEAVY);
    assert d.links[1] == Links(Calls(), cs, owner, 1) == {0};
    assert d.links[2] == Links(Calls(), cs, owner, 2) == {1};
  }

  lemma LinkIs(cs: seq<seq<Title>>, owner: map<Title, nat>, u: Title, w: Title)
    requires u in owner && w in owner && owner[u] < |cs| && u in cs[owner[u]] && w in Callees(Calls(), u) && owner[w] != owner[u]
    ensures owner[w] in Links(Calls(), cs, owner, owner[u])
  {
  }

  lemma LevelsAre()
    ensures ParserLevel(Kinds()) == 3 && OtherLevels(Kinds()) == map[5 := 3]
  {
    var a, b, c := Kinds()[0], Kinds()[1], Kinds()[2];
    assert [] + [a] == [a] && [a] + [b] == [a, b] && [a, b] + [c] == Kinds();
    hide ParserLevel, OtherLevels;
    Filed([], a, 0, map[]) by { NoneFiled(); }
    Filed([a], b, 3, map[]);
    Filed([a, b], c, 3, map[5 := 9]);
  }

  lemma NoneFiled()
    ensures ParserLevel([]) == 0 && OtherLevels([]) == map[]
  {
  }

  lemma Filed(kinds: seq<Kind>, last: Kind, level: nat, others: map<Name, nat>)
    requires ParserLevel(kinds) == level && OtherLevels(kinds) == others && last.Bounded?
    ensures ParserLevel(kinds + [last]) == if last.parses then HC.Max(level, last.level) else level
    ensures OtherLevels(kinds + [last]) == if last.parses then others else others[last.name := last.level]
  {
    LastKind(kinds, last);
  }

  lemma {:induction false} NothingOwned(d: Dag, q: seq<nat>)
    requires d.kinds == Kinds()
    ensures Own(d, q) == 0
  {
    if q != [] { NothingOwned(d, q[1..]); }
  }

  lemma {:induction false} CrossesParser(d: Dag, q: seq<nat>)
    requires d.kinds == Kinds() && 0 in q
    ensures Parses(d, q)
  {
    if q[0] != 0 { CrossesParser(d, q[1..]); }
  }

  /** Whatever the nesting depth, no problem is reported, and the chain through all three spends three times
      what is reported as the worst. */
  lemma HeavyGoesUnreported(depth: nat, m: Measured, cs: seq<seq<Title>>, owner: map<Title, nat>, d: Dag)
    requires IsReport(Calls(), Labels(), {}, Judge(), depth, [LIGHT], true, m, cs, owner, d)
    ensures m.problems == [] && !WithinBudget(d, depth, [LIGHT], owner, m)
    ensures IsDescent(d, [2, 1, 0]) && Spend(d, depth, [2, 1, 0]) == 9 * (depth + 1) > HC.Max(m.Worst(depth), m.otherRest)
  {
    hide IsCosted, Attained, ReplacedAreHarmless, WithinBudget;
    assert IsCosted(Calls(), Labels(), Judge(), [LIGHT], cs, owner, d);
    KindsAre(cs, owner, d);
    LevelsAre();
    NoProblemIs({}, owner, d.kinds, true, m.problems);
    assert d.kinds[0].Parser() && OthersAccepted(d.kinds);
    Deepest(d, depth);
    Reported(d, depth, owner, m);
    assert LIGHT in [LIGHT] && FromRoot([LIGHT], owner, 2);
    OverBudget(d, depth, owner, m);
  }

  lemma Deepest(d: Dag, depth: nat)
    requires d.kinds == Kinds() && d.links == [{}, {0}, {1}]
    ensures IsDescent(d, [2, 1, 0]) && Spend(d, depth, [2, 1, 0]) == 9 * (depth + 1)
  {
    NothingOwned(d, [2, 1, 0]);
    assert [2, 1, 0][1..] == [1, 0] && [1, 0][1..] == [0] && [0][1..] == [];
    assert Heaviest(d, [0]) == 3 && Heaviest(d, [1, 0]) == 9 && Heaviest(d, [2, 1, 0]) == 9;
    assert IsDescent(d, [0]) && d.Calls(1, 0) && IsDescent(d, [1, 0]) && d.Calls(2, 1);
  }

  lemma Reported(d: Dag, depth: nat, owner: map<Title, nat>, m: Measured)
    requires d.kinds == Kinds() && d.links == [{}, {0}, {1}] && m.level == 3 && Attained(d, depth, [LIGHT], owner, m)
    ensures m.Worst(depth) <= 3 * (depth + 1) && m.otherRest == 0
  {
    hide IsDescent, FromRoot;
    if m.chain != [] {
      var q :| ParsingReal(d, [LIGHT], owner, m, q);
      NothingOwned(d, q);
    }
    if m.otherChain != [] {
      var q :| OtherReal(d, depth, [LIGHT], owner, m, q);
      assert q[|q| - 1] == 0 && q[|q| - 1] in q;
      CrossesParser(d, q);
      assert false;
    }
  }

  lemma OverBudget(d: Dag, depth: nat, owner: map<Title, nat>, m: Measured)
    requires IsDescent(d, [2, 1, 0]) && FromRoot([LIGHT], owner, 2)
    requires Spend(d, depth, [2, 1, 0]) > HC.Max(m.Worst(depth), m.otherRest)
    ensures !WithinBudget(d, depth, [LIGHT], owner, m)
  {
    hide IsDescent, FromRoot, Spend;
    assert [2, 1, 0][0] == 2;
  }
}
