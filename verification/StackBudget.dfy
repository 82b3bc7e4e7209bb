/** `measure_thread` (scripts/stack-budget.py): the deepest chains of calls from a thread's roots,
    by a longest-path computation over the condensation of the call graph. */
module StackBudget {
  import opened Options
  import opened CallGraph
  import opened Tarjan
  import HC = HeaviestCycle

  // ----- The rules a recursion is judged by -----

  /** A function's label. Labels are compared, sorted and matched, so they too are numbered in
      their sorted order. */
  type Name = nat

  /** One row of `SIZE_BOUNDED`: what its pattern matches, and how many levels it may go. */
  datatype SizeRule = SizeRule(matches: Name -> bool, levels: nat)

  datatype Rules = Rules(sizeBounded: seq<SizeRule>, bounded: Name -> bool, parser: Name -> bool, maxRecursion: nat)

  /** How one component is costed. */
  datatype Kind =
    | Plain(frame: nat)                             // does not recurse
    | Sized(cost: nat)                              // bounded by the size of what it walks
    | Bounded(level: nat, name: Name, parses: bool) // bounded by the nesting limit
    | Runaway                                       // bounded by nothing
  {
    function Level(): nat { if Bounded? then level else 0 }
    function Own(): nat { if Plain? then frame else if Sized? then cost else 0 }
    predicate Parser() { Bounded? && parses }
  }

  function NameOf(names: map<Title, Name>, n: Title): Name {
    if n in names then names[n] else n
  }

  predicate AllMatch(names: map<Title, Name>, c: seq<Title>, pattern: Name -> bool) {
    forall n :: n in c ==> pattern(NameOf(names, n))
  }

  predicate AnyMatches(names: map<Title, Name>, c: seq<Title>, pattern: Name -> bool) {
    exists n :: n in c && pattern(NameOf(names, n))
  }

  /** The levels the first matching size rule allows. */
  function SizedLevels(names: map<Title, Name>, rows: seq<SizeRule>, c: seq<Title>): Option<nat> {
    if rows == [] then None
    else if AllMatch(names, c, rows[0].matches) then Some(rows[0].levels)
    else SizedLevels(names, rows[1..], c)
  }

  ghost predicate MatchedBy(names: map<Title, Name>, row: SizeRule, c: seq<Title>) { forall n :: n in c ==> row.matches(NameOf(names, n)) }

  /** The first row whose pattern all the names match. */
  ghost predicate RuleAt(names: map<Title, Name>, rows: seq<SizeRule>, c: seq<Title>, r: nat) {
    r < |rows| && MatchedBy(names, rows[r], c) && forall s :: 0 <= s < r ==> !MatchedBy(names, rows[s], c)
  }

  ghost predicate FirstRule(names: map<Title, Name>, rows: seq<SizeRule>, c: seq<Title>, levels: nat) {
    exists r: nat :: RuleAt(names, rows, c, r) && rows[r].levels == levels
  }

  lemma FirstRuleIsOne(names: map<Title, Name>, rows: seq<SizeRule>, c: seq<Title>, a: nat, b: nat)
    requires FirstRule(names, rows, c, a) && FirstRule(names, rows, c, b)
    ensures a == b
  {
    var r: nat :| RuleAt(names, rows, c, r) && rows[r].levels == a;
    var t: nat :| RuleAt(names, rows, c, t) && rows[t].levels == b;
    assert r == t;
  }

  /** The row the search stops at is the first one whose pattern all the names match. */
  lemma {:induction false} SizedLevelsIs(names: map<Title, Name>, rows: seq<SizeRule>, c: seq<Title>)
    ensures match SizedLevels(names, rows, c)
            case Some(levels) => FirstRule(names, rows, c, levels)
            case None => forall levels: nat :: !FirstRule(names, rows, c, levels)
  {
    if rows != [] {
      if AllMatch(names, c, rows[0].matches) {
        assert RuleAt(names, rows, c, 0);
      } else {
        hide RuleAt, FirstRule;
        SizedLevelsIs(names, rows[1..], c);
        forall levels: nat ensures FirstRule(names, rows[1..], c, levels) <==> FirstRule(names, rows, c, levels) {
          FirstOfRest(names, rows, c, levels);
        }
      }
    }
  }

  lemma OneFurther(names: map<Title, Name>, rows: seq<SizeRule>, c: seq<Title>, r: nat)
    requires rows != [] && !MatchedBy(names, rows[0], c)
    ensures RuleAt(names, rows[1..], c, r) <==> RuleAt(names, rows, c, r + 1)
  {
    hide MatchedBy;
    if RuleAt(names, rows, c, r + 1) {
      forall s | 0 <= s < r ensures !MatchedBy(names, rows[1..][s], c) { assert rows[1..][s] == rows[s + 1]; }
    }
    if RuleAt(names, rows[1..], c, r) {
      forall s | 0 <= s < r + 1 ensures !MatchedBy(names, rows[s], c) {
        if s > 0 { assert rows[1..][s - 1] == rows[s]; }
      }
    }
  }

  lemma FirstOfRest(names: map<Title, Name>, rows: seq<SizeRule>, c: seq<Title>, levels: nat)
    requires rows != [] && !MatchedBy(names, rows[0], c)
    ensures FirstRule(names, rows[1..], c, levels) <==> FirstRule(names, rows, c, levels)
  {
    assert !RuleAt(names, rows, c, 0);
    hide RuleAt;
    if FirstRule(names, rows, c, levels) {
      var r: nat :| RuleAt(names, rows, c, r) && rows[r].levels == levels;
      OneFurther(names, rows, c, r - 1);
      assert rows[1..][r - 1].levels == levels;
    }
    if FirstRule(names, rows[1..], c, levels) {
      var r: nat :| RuleAt(names, rows[1..], c, r) && rows[1..][r].levels == levels;
      OneFurther(names, rows, c, r);
      assert rows[r + 1].levels == levels;
    }
  }

  ghost predicate IsLeastName(names: map<Title, Name>, c: seq<Title>, name: Name) {
    && (exists n :: n in c && NameOf(names, n) == name)
    && (forall n :: n in c ==> name <= NameOf(names, n))
  }

  predicate Recursive(g: Graph, c: seq<Title>)
    requires c != []
  {
    |c| > 1 || c[0] in Callees(g, c[0])
  }

  ghost predicate HeaviestOf(g: Graph, c: seq<Title>, h: nat) { HC.IsHeaviest(g, HC.Elements(c), h) }

  ghost predicate IsKind(g: Graph, names: map<Title, Name>, rules: Rules, c: seq<Title>, kind: Kind)
    requires c != []
  {
    if !Recursive(g, c) then kind == Plain(FrameOf(g, c[0]))
    else if |c| <= rules.maxRecursion && exists levels: nat :: FirstRule(names, rules.sizeBounded, c, levels) then
      exists levels: nat, h: nat :: FirstRule(names, rules.sizeBounded, c, levels) && HeaviestOf(g, c, h) && kind == Sized(levels * h)
    else if |c| > rules.maxRecursion || exists n :: n in c && !rules.bounded(NameOf(names, n)) then kind == Runaway
    else
      && kind.Bounded?
      && HeaviestOf(g, c, kind.level)
      && IsLeastName(names, c, kind.name)
      && (kind.parses <==> exists n :: n in c && rules.parser(NameOf(names, n)))
  }

  method LeastName(names: map<Title, Name>, c: seq<Title>) returns (name: Name)
    requires c != []
    ensures IsLeastName(names, c, name)
  {
    name := NameOf(names, c[0]);
    for i := 1 to |c|
      invariant exists n :: n in c && NameOf(names, n) == name
      invariant forall j :: 0 <= j < i ==> name <= NameOf(names, c[j])
    {
      if NameOf(names, c[i]) < name {
        name := NameOf(names, c[i]);
      }
    }
  }

  method KindOf(g: Graph, names: map<Title, Name>, rules: Rules, c: seq<Title>) returns (kind: Kind)
    requires c != []
    ensures IsKind(g, names, rules, c, kind)
  {
    hide FirstRule, HC.IsHeaviest, Callees;
    var sized := SizedLevels(names, rules.sizeBounded, c);
    SizedLevelsIs(names, rules.sizeBounded, c);
    if !Recursive(g, c) {
      kind := Plain(FrameOf(g, c[0]));
    } else if sized.Some? && |c| <= rules.maxRecursion {
      var h := HC.HeaviestCycle(g, c);
      kind := Sized(sized.value * h);
    } else if !AllMatch(names, c, rules.bounded) || |c| > rules.maxRecursion {
      kind := Runaway;
    } else {
      var h := HC.HeaviestCycle(g, c);
      var name := LeastName(names, c);
      kind := Bounded(h, name, AnyMatches(names, c, rules.parser));
    }
  }

  // ----- Paths over the condensation -----

  /** The condensation: what each component calls, its first member, and how it is costed. */
  datatype Dag = Dag(links: seq<set<nat>>, heads: seq<Title>, kinds: seq<Kind>) {
    ghost predicate Valid() {
      && |links| == |heads| == |kinds|
      && forall n, t :: 0 <= n < |links| && t in links[n] ==> t < n
    }

    function Kind(n: nat): Kind { if n < |kinds| then kinds[n] else Runaway }

    function Head(n: nat): Title { if n < |heads| then heads[n] else 0 }

    ghost predicate Calls(n: nat, t: nat) { n < |links| && t < |links| && t in links[n] }
  }

  /** A chain of components, each calling the next. */
  ghost predicate IsDescent(d: Dag, q: seq<nat>) {
    q != [] && q[0] < |d.links| && (|q| > 1 ==> d.Calls(q[0], q[1]) && IsDescent(d, q[1..]))
  }

  ghost function Own(d: Dag, q: seq<nat>): nat {
    if q == [] then 0 else d.Kind(q[0]).Own() + Own(d, q[1..])
  }

  ghost function Heaviest(d: Dag, q: seq<nat>): nat {
    if q == [] then 0 else HC.Max(d.Kind(q[0]).Level(), Heaviest(d, q[1..]))
  }

  ghost predicate Parses(d: Dag, q: seq<nat>) {
    q != [] && (d.Kind(q[0]).Parser() || Parses(d, q[1..]))
  }

  ghost function Titles(d: Dag, q: seq<nat>): seq<Title> {
    if q == [] then [] else [d.Head(q[0])] + Titles(d, q[1..])
  }

  // ----- The fronts -----

  datatype Key = Key(level: nat, parser: bool)

  datatype Entry = Entry(cost: nat, chain: seq<Title>)

  type Front = map<Key, Entry>

  function LiftKey(kind: Kind, key: Key): Key {
    Key(HC.Max(key.level, kind.Level()), key.parser || kind.Parser())
  }

  function LiftEntry(kind: Kind, head: Title, entry: Entry): Entry {
    Entry(entry.cost + kind.Own(), [head] + entry.chain)
  }

  /** An entry that costs at least as much as `q` on every count. */
  ghost predicate Dominates(d: Dag, front: Front, key: Key, q: seq<nat>) {
    && key in front && front[key].cost >= Own(d, q)
    && key.level >= Heaviest(d, q) && (Parses(d, q) ==> key.parser)
  }

  ghost predicate Covered(d: Dag, front: Front, q: seq<nat>) {
    exists key :: Dominates(d, front, key, q)
  }

  /** The descent goes on as long as there is something to call. */
  ghost predicate Ends(d: Dag, q: seq<nat>) {
    q != [] && q[|q| - 1] < |d.links| && d.links[q[|q| - 1]] == {}
  }

  /** `q` is a whole descent from `n` that costs exactly what the entry says. */
  ghost predicate Realises(d: Dag, n: nat, key: Key, entry: Entry, q: seq<nat>) {
    && IsDescent(d, q) && Ends(d, q) && q[0] == n
    && Heaviest(d, q) == key.level && Parses(d, q) == key.parser
    && Own(d, q) == entry.cost && Titles(d, q) == entry.chain
  }

  ghost predicate Real(d: Dag, n: nat, key: Key, entry: Entry) {
    exists q :: Realises(d, n, key, entry, q)
  }

  /** One front loses no descent and invents none. */
  ghost predicate IsFront(d: Dag, n: nat, front: Front) {
    && (forall q :: IsDescent(d, q) && q[0] == n ==> Covered(d, front, q))
    && (forall key :: key in front ==> Real(d, n, key, front[key]))
  }

  ghost predicate AtLeast(front: Front, key: Key, cost: nat) {
    key in front && front[key].cost >= cost
  }

  /** Fold one callee's front into what is below. */
  method MergeInto(below: Front, front: Front) returns (merged: Front)
    ensures forall key :: key in front ==> AtLeast(merged, key, front[key].cost)
    ensures forall key :: key in below ==> AtLeast(merged, key, below[key].cost)
    ensures forall key :: key in merged ==> (key in below && merged[key] == below[key]) || (key in front && merged[key] == front[key])
  {
    merged := below;
    var keys := front.Keys;
    while keys != {}
      invariant keys <= front.Keys
      invariant forall key :: key in front && key !in keys ==> AtLeast(merged, key, front[key].cost)
      invariant forall key :: key in below ==> AtLeast(merged, key, below[key].cost)
      invariant forall key :: key in merged ==> (key in below && merged[key] == below[key]) || (key in front && merged[key] == front[key])
    {
      var key :| key in keys;
      keys := keys - {key};
      if key !in merged || front[key].cost > merged[key].cost {
        merged := merged[key := front[key]];
      }
    }
  }

  ghost predicate LiftedFrom(kind: Kind, head: Title, below: Front, mine: Front, key: Key, from: Key) {
    key in mine && from in below && key == LiftKey(kind, from) && mine[key] == LiftEntry(kind, head, below[from])
  }

  ghost predicate IsLifted(kind: Kind, head: Title, below: Front, mine: Front, key: Key) {
    exists from :: LiftedFrom(kind, head, below, mine, key, from)
  }

  /** Put this component on top of every entry below it. */
  method LiftAll(kind: Kind, head: Title, below: Front) returns (mine: Front)
    ensures LiftsAll(kind, head, below, mine)
  {
    mine := map[];
    var keys := below.Keys;
    while keys != {}
      invariant keys <= below.Keys
      invariant forall key :: key in below && key !in keys ==> AtLeast(mine, LiftKey(kind, key), below[key].cost + kind.Own())
      invariant forall key :: key in mine ==> IsLifted(kind, head, below, mine, key)
    {
      var key :| key in keys;
      keys := keys - {key};
      var lifted, entry := LiftKey(kind, key), LiftEntry(kind, head, below[key]);
      if lifted !in mine || entry.cost > mine[lifted].cost {
        ghost var was := mine;
        mine := mine[lifted := entry];
        assert LiftedFrom(kind, head, below, mine, lifted, key);
        forall other | other in mine && other != lifted ensures IsLifted(kind, head, below, mine, other) {
          var from :| LiftedFrom(kind, head, below, was, other, from);
          assert LiftedFrom(kind, head, below, mine, other, from);
        }
      }
    }
  }

  /** `key` came from the front of one of `links`. */
  ghost predicate FromLink(best: seq<Front>, links: set<nat>, below: Front, key: Key, t: nat) {
    t in links && t < |best| && key in below && key in best[t] && best[t][key] == below[key]
  }

  ghost predicate IsFromLinks(best: seq<Front>, links: set<nat>, below: Front, key: Key) {
    exists t :: FromLink(best, links, below, key, t)
  }

  /** What is below a component that calls `links`: their fronts, folded together. */
  ghost predicate IsFolded(best: seq<Front>, links: set<nat>, below: Front) {
    && (forall t, key :: t in links && t < |best| && key in best[t] ==> AtLeast(below, key, best[t][key].cost))
    && (forall key :: key in below ==> IsFromLinks(best, links, below, key))
  }

  const NOTHING: Front := map[Key(0, false) := Entry(0, [])]

  ghost predicate IsBelow(best: seq<Front>, links: set<nat>, below: Front) {
    if links == {} then below == NOTHING else IsFolded(best, links, below)
  }

  ghost predicate FrontsUpTo(d: Dag, best: seq<Front>) {
    |best| <= |d.links| && forall k :: 0 <= k < |best| ==> IsFront(d, k, best[k])
  }

  ghost predicate LiftsAll(kind: Kind, head: Title, below: Front, mine: Front) {
    && (forall key :: key in below ==> AtLeast(mine, LiftKey(kind, key), below[key].cost + kind.Own()))
    && (forall key :: key in mine ==> IsLifted(kind, head, below, mine, key))
  }

  lemma Unroll(d: Dag, n: nat, q: seq<nat>)
    ensures Own(d, [n] + q) == d.Kind(n).Own() + Own(d, q)
    ensures Heaviest(d, [n] + q) == HC.Max(d.Kind(n).Level(), Heaviest(d, q))
    ensures Parses(d, [n] + q) == (d.Kind(n).Parser() || Parses(d, q))
    ensures Titles(d, [n] + q) == [d.Head(n)] + Titles(d, q)
  {
    assert ([n] + q)[1..] == q;
  }

  /** What dominates the rest of a descent dominates the whole of it, once lifted. */
  lemma LiftDominates(d: Dag, n: nat, below: Front, mine: Front, key: Key, rest: seq<nat>)
    requires Dominates(d, below, key, rest)
    requires AtLeast(mine, LiftKey(d.Kind(n), key), below[key].cost + d.Kind(n).Own())
    ensures Covered(d, mine, [n] + rest)
  {
    Unroll(d, n, rest);
    assert Dominates(d, mine, LiftKey(d.Kind(n), key), [n] + rest);
  }

  lemma RaiseDominates(d: Dag, front: Front, below: Front, key: Key, q: seq<nat>)
    requires Dominates(d, front, key, q) && AtLeast(below, key, front[key].cost)
    ensures Dominates(d, below, key, q)
  {
  }

  lemma SelfCovered(d: Dag, n: nat, below: Front, mine: Front, key: Key)
    requires LiftsAll(d.Kind(n), d.Head(n), below, mine) && key in below
    ensures Covered(d, mine, [n])
  {
    assert Dominates(d, below, key, []);
    LiftDominates(d, n, below, mine, key, []);
    assert [n] + [] == [n];
  }

  lemma FurtherCovered(d: Dag, best: seq<Front>, n: nat, below: Front, mine: Front, rest: seq<nat>)
    requires rest != [] && rest[0] < |best| && Covered(d, best[rest[0]], rest) && n < |d.links|
    requires rest[0] in d.links[n]
    requires IsFolded(best, d.links[n], below) && LiftsAll(d.Kind(n), d.Head(n), below, mine)
    ensures Covered(d, mine, [n] + rest)
  {
    var t := rest[0];
    var key :| Dominates(d, best[t], key, rest);
    RaiseDominates(d, best[t], below, key, rest);
    LiftDominates(d, n, below, mine, key, rest);
  }

  /** A front is never empty: the component on its own is a descent. */
  lemma FrontHasKey(d: Dag, n: nat, front: Front) returns (key: Key)
    requires IsFront(d, n, front) && n < |d.links|
    ensures key in front
  {
    assert IsDescent(d, [n]) && [n][0] == n;
    assert Covered(d, front, [n]);
    key :| Dominates(d, front, key, [n]);
  }

  lemma LiftReal(d: Dag, n: nat, below: Front, mine: Front, key: Key, from: Key, q: seq<nat>)
    requires LiftedFrom(d.Kind(n), d.Head(n), below, mine, key, from) && n < |d.links|
    requires if q == [] then from == Key(0, false) && below[from] == Entry(0, []) && d.links[n] == {}
             else Realises(d, q[0], from, below[from], q) && d.Calls(n, q[0])
    ensures Real(d, n, key, mine[key])
  {
    Unroll(d, n, q);
    assert ([n] + q)[1..] == q;
    assert Realises(d, n, key, mine[key], [n] + q);
  }

  lemma LinkedIsReal(d: Dag, n: nat, t: nat, front: Front, below: Front, mine: Front, key: Key, from: Key)
    requires d.Calls(n, t) && from in front && Real(d, t, from, front[from])
    requires LiftedFrom(d.Kind(n), d.Head(n), below, mine, key, from) && below[from] == front[from]
    ensures Real(d, n, key, mine[key])
  {
    var q :| Realises(d, t, from, front[from], q);
    RealisesFrom(d, t, from, front[from], q);
    LiftReal(d, n, below, mine, key, from, q);
  }

  lemma FoldedFrom(best: seq<Front>, links: set<nat>, below: Front, from: Key) returns (t: nat)
    requires IsFolded(best, links, below) && from in below
    ensures FromLink(best, links, below, from, t)
  {
    assert IsFromLinks(best, links, below, from);
    t :| FromLink(best, links, below, from, t);
  }

  /** No entry is invented. */
  lemma LiftedIsReal(d: Dag, best: seq<Front>, n: nat, below: Front, mine: Front, key: Key)
    requires d.Valid() && FrontsUpTo(d, best) && n == |best| < |d.links|
    requires IsBelow(best, d.links[n], below) && IsLifted(d.Kind(n), d.Head(n), below, mine, key)
    ensures Real(d, n, key, mine[key])
  {
    hide IsDescent, Covered, Real, IsFolded;
    var from :| LiftedFrom(d.Kind(n), d.Head(n), below, mine, key, from);
    if d.links[n] == {} {
      LiftReal(d, n, below, mine, key, from, []);
    } else {
      var t := FoldedFrom(best, d.links[n], below, from);
      assert IsFront(d, t, best[t]);
      LinkedIsReal(d, n, t, best[t], below, mine, key, from);
    }
  }

  lemma RealisesFrom(d: Dag, n: nat, key: Key, entry: Entry, q: seq<nat>)
    requires Realises(d, n, key, entry, q)
    ensures q != [] && q[0] == n
  {
  }

  lemma HasSome(d: Dag, best: seq<Front>, n: nat, below: Front) returns (some: Key)
    requires d.Valid() && FrontsUpTo(d, best) && n == |best| < |d.links| && IsBelow(best, d.links[n], below)
    ensures some in below
  {
    hide IsDescent, Covered, Dominates, Realises, IsFromLinks;
    if d.links[n] == {} {
      some := Key(0, false);
    } else {
      var t :| t in d.links[n];
      assert IsFront(d, t, best[t]);
      some := FrontHasKey(d, t, best[t]);
      assert AtLeast(below, some, best[t][some].cost);
    }
  }

  lemma DescentCovered(d: Dag, best: seq<Front>, n: nat, below: Front, mine: Front, q: seq<nat>)
    requires d.Valid() && FrontsUpTo(d, best) && n == |best| < |d.links|
    requires IsBelow(best, d.links[n], below) && LiftsAll(d.Kind(n), d.Head(n), below, mine)
    requires IsDescent(d, q) && q[0] == n
    ensures Covered(d, mine, q)
  {
    hide Covered, Dominates, Realises, IsFromLinks, AtLeast, IsLifted;
    if |q| == 1 {
      assert q == [n];
      var some := HasSome(d, best, n, below);
      SelfCovered(d, n, below, mine, some);
    } else {
      assert IsFront(d, q[1], best[q[1]]);
      FurtherCovered(d, best, n, below, mine, q[1..]);
      assert q == [n] + q[1..];
    }
  }

  lemma LiftedIsFront(d: Dag, best: seq<Front>, n: nat, below: Front, mine: Front)
    requires d.Valid() && FrontsUpTo(d, best) && n == |best| < |d.links|
    requires IsBelow(best, d.links[n], below) && LiftsAll(d.Kind(n), d.Head(n), below, mine)
    ensures IsFront(d, n, mine)
  {
    hide Covered, Dominates, Realises, IsFromLinks, FrontsUpTo, IsBelow, AtLeast;
    forall q | IsDescent(d, q) && q[0] == n ensures Covered(d, mine, q) {
      DescentCovered(d, best, n, below, mine, q);
    }
    forall key | key in mine ensures Real(d, n, key, mine[key]) {
      LiftedIsReal(d, best, n, below, mine, key);
    }
  }

  // ----- Filling the fronts in, callees first -----

  ghost predicate OwnsExactly(cs: seq<seq<Title>>, owner: map<Title, nat>) {
    && (forall n :: n in owner ==> owner[n] < |cs| && n in cs[owner[n]])
    && (forall i, n :: 0 <= i < |cs| && n in cs[i] ==> n in owner && owner[n] == i)
  }

  /** The components that component `n` calls directly. */
  ghost function Links(g: Graph, cs: seq<seq<Title>>, owner: map<Title, nat>, n: nat): set<nat>
    requires n < |cs|
  {
    set m, w | m in cs[n] && w in Callees(g, m) && w in owner && owner[w] != n :: owner[w]
  }

  ghost predicate IsDagOf(g: Graph, cs: seq<seq<Title>>, owner: map<Title, nat>, kinds: seq<Kind>, d: Dag) {
    && d.Valid() && |d.links| == |cs| && d.kinds == kinds
    && (forall n :: 0 <= n < |cs| ==> d.links[n] == Links(g, cs, owner, n))
    && (forall n :: 0 <= n < |cs| ==> cs[n] != [] && d.heads[n] == cs[n][0])
  }

  lemma BuildDag(g: Graph, cs: seq<seq<Title>>, owner: map<Title, nat>, kinds: seq<Kind>) returns (d: Dag)
    requires CalleesFirst(g, cs) && OwnsExactly(cs, owner) && |kinds| == |cs|
    requires forall n :: 0 <= n < |cs| ==> cs[n] != []
    ensures IsDagOf(g, cs, owner, kinds, d)
  {
    d := Dag(seq(|cs|, n requires 0 <= n < |cs| => Links(g, cs, owner, n)),
             seq(|cs|, n requires 0 <= n < |cs| => cs[n][0]), kinds);
    forall n, t | 0 <= n < |cs| && t in d.links[n] ensures t < n {
      var m, w :| m in cs[n] && w in Callees(g, m) && w in owner && owner[w] != n && owner[w] == t;
      assert EmittedBy(cs, n, w);
    }
  }

  method OwnersOf(cs: seq<seq<Title>>) returns (owner: map<Title, nat>)
    requires PairwiseDisjoint(cs)
    ensures OwnsExactly(cs, owner)
  {
    owner := map[];
    for number := 0 to |cs|
      invariant forall n :: n in owner ==> owner[n] < number && n in cs[owner[n]]
      invariant forall i, n :: 0 <= i < number && n in cs[i] ==> n in owner && owner[n] == i
    {
      for j := 0 to |cs[number]|
        invariant forall n :: n in owner ==> owner[n] <= number && n in cs[owner[n]]
        invariant forall i, n :: 0 <= i < number && n in cs[i] ==> n in owner && owner[n] == i
        invariant forall i :: 0 <= i < j ==> cs[number][i] in owner && owner[cs[number][i]] == number
      {
        owner := owner[cs[number][j] := number];
      }
    }
  }

  lemma FoldMore(best: seq<Front>, links: set<nat>, below: Front, t: nat, merged: Front)
    requires IsFolded(best, links, below) && t < |best|
    requires forall key :: key in best[t] ==> AtLeast(merged, key, best[t][key].cost)
    requires forall key :: key in below ==> AtLeast(merged, key, below[key].cost)
    requires forall key :: key in merged ==> (key in below && merged[key] == below[key]) || (key in best[t] && merged[key] == best[t][key])
    ensures IsFolded(best, links + {t}, merged)
  {
    forall s, key | s in links + {t} && s < |best| && key in best[s] ensures AtLeast(merged, key, best[s][key].cost) {
      if s in links { assert AtLeast(below, key, best[s][key].cost); }
    }
    forall key | key in merged ensures IsFromLinks(best, links + {t}, merged, key) {
      if key in below && merged[key] == below[key] {
        assert IsFromLinks(best, links, below, key);
        var s :| FromLink(best, links, below, key, s);
        assert FromLink(best, links + {t}, merged, key, s);
      } else {
        assert FromLink(best, links + {t}, merged, key, t);
      }
    }
  }

  /** Every component that one of the first `i` members of the `n`th calls is among those seen. */
  ghost predicate SeenUpTo(g: Graph, cs: seq<seq<Title>>, owner: map<Title, nat>, n: nat, i: nat, seen: set<nat>)
    requires n < |cs|
  {
    forall j, w :: 0 <= j < i && j < |cs[n]| && w in Callees(g, cs[n][j]) && w in owner && owner[w] != n ==> owner[w] in seen
  }

  /** Fold the fronts of everything `n` calls. */
  method BelowOf(g: Graph, cs: seq<seq<Title>>, owner: map<Title, nat>, ghost d: Dag, best: seq<Front>, n: nat) returns (below: Front)
    requires OwnsExactly(cs, owner) && IsDagOf(g, cs, owner, d.kinds, d) && FrontsUpTo(d, best) && n == |best| < |cs|
    ensures IsBelow(best, d.links[n], below)
  {
    hide IsFolded, IsFront, SeenUpTo, FrontsUpTo;
    below := map[];
    ghost var seen: set<nat> := {};
    NothingFolded(best);
    assert SeenUpTo(g, cs, owner, n, 0, seen) by { NoneSeen(g, cs, owner, n); }
    for i := 0 to |cs[n]|
      invariant seen <= d.links[n] && IsFolded(best, seen, below) && SeenUpTo(g, cs, owner, n, i, seen)
    {
      below, seen := FoldCallees(g, cs, owner, d, best, n, i, below, seen);
    }
    AllSeen(g, cs, owner, d, n, seen);
    FoldedEmpty(d, best, seen, below);
    if below == map[] {
      below := NOTHING;
    }
  }

  lemma NoneSeen(g: Graph, cs: seq<seq<Title>>, owner: map<Title, nat>, n: nat)
    requires n < |cs|
    ensures SeenUpTo(g, cs, owner, n, 0, {})
  {
  }

  lemma AllSeen(g: Graph, cs: seq<seq<Title>>, owner: map<Title, nat>, d: Dag, n: nat, seen: set<nat>)
    requires IsDagOf(g, cs, owner, d.kinds, d) && n < |cs| && seen <= d.links[n] && SeenUpTo(g, cs, owner, n, |cs[n]|, seen)
    ensures seen == d.links[n] && forall t :: t in seen ==> t < n
  {
    forall t | t in d.links[n] ensures t in seen {
      var m, w :| m in cs[n] && w in Callees(g, m) && w in owner && owner[w] != n && owner[w] == t;
      var j :| 0 <= j < |cs[n]| && cs[n][j] == m;
    }
  }

  /** Fold the fronts of everything one member calls. */
  method FoldCallees(g: Graph, cs: seq<seq<Title>>, owner: map<Title, nat>, ghost d: Dag, best: seq<Front>, n: nat, i: nat, before: Front, ghost seen: set<nat>)
    returns (below: Front, ghost now: set<nat>)
    requires OwnsExactly(cs, owner) && IsDagOf(g, cs, owner, d.kinds, d) && n == |best| < |cs| && i < |cs[n]|
    requires seen <= d.links[n] && IsFolded(best, seen, before) && SeenUpTo(g, cs, owner, n, i, seen)
    ensures now <= d.links[n] && IsFolded(best, now, below) && SeenUpTo(g, cs, owner, n, i + 1, now)
  {
    hide IsFolded;
    below, now := before, seen;
    var callees := Sorted(Callees(g, cs[n][i]));
    for c := 0 to |callees|
      invariant seen <= now <= d.links[n] && IsFolded(best, now, below)
      invariant forall j :: 0 <= j < c && callees[j] in owner && owner[callees[j]] != n ==> owner[callees[j]] in now
    {
      var callee := callees[c];
      assert callee in callees;
      if callee in owner && owner[callee] != n {
        var target := owner[callee];
        assert target in Links(g, cs, owner, n) by { assert cs[n][i] in cs[n]; }
        var merged := MergeInto(below, best[target]);
        FoldMore(best, now, below, target, merged);
        below, now := merged, now + {target};
      }
    }
    assert forall w :: w in Callees(g, cs[n][i]) ==> w in callees;
  }

  lemma NothingFolded(best: seq<Front>)
    ensures IsFolded(best, {}, map[])
  {
  }

  lemma FoldedEmpty(d: Dag, best: seq<Front>, links: set<nat>, below: Front)
    requires d.Valid() && FrontsUpTo(d, best) && IsFolded(best, links, below) && forall t :: t in links ==> t < |best|
    ensures links == {} <==> below == map[]
  {
    hide IsDescent, Covered, Real;
    if links != {} {
      var t :| t in links;
      assert IsFront(d, t, best[t]);
      var key := FrontHasKey(d, t, best[t]);
      assert AtLeast(below, key, best[t][key].cost);
    } else {
      assert forall key :: key in below ==> IsFromLinks(best, links, below, key);
    }
  }

  method FrontsOf(g: Graph, cs: seq<seq<Title>>, owner: map<Title, nat>, kinds: seq<Kind>, ghost d: Dag) returns (best: seq<Front>)
    requires OwnsExactly(cs, owner) && IsDagOf(g, cs, owner, kinds, d)
    ensures |best| == |cs| && FrontsUpTo(d, best)
  {
    hide IsFront, IsBelow;
    best := [];
    for n := 0 to |cs|
      invariant |best| == n && FrontsUpTo(d, best)
    {
      var below := BelowOf(g, cs, owner, d, best, n);
      var mine := LiftAll(kinds[n], cs[n][0], below);
      LiftedIsFront(d, best, n, below, mine);
      best := best + [mine];
    }
  }

  // ----- The verdict -----

  datatype Problem =
    | UnboundedFrame(title: Title)
    | RunawayRecursion(component: nat)
    | ReachesReader(component: nat)
    | NoParser
    | HeavierThanParser(name: Name)

  datatype Measured = Measured(problems: seq<Problem>, level: nat, rest: nat, otherLevels: map<Name, nat>,
                               otherRest: nat, chain: seq<Title>, otherChain: seq<Title>)
  {
    /** What the report allows a chain with the parser on it to spend; 0 if it has found none. */
    function Worst(depth: nat): nat { if chain == [] then 0 else (depth + 1) * level + rest }
  }

  /** `other_levels` as the loop leaves it: a later component of the same name replaces an earlier. */
  function OtherLevels(kinds: seq<Kind>): map<Name, nat> {
    if kinds == [] then map[]
    else
      var before, last := OtherLevels(kinds[..|kinds| - 1]), kinds[|kinds| - 1];
      if last.Bounded? && !last.parses then before[last.name := last.level] else before
  }

  /** The parser's heaviest level. */
  function ParserLevel(kinds: seq<Kind>): nat {
    if kinds == [] then 0
    else
      var before, last := ParserLevel(kinds[..|kinds| - 1]), kinds[|kinds| - 1];
      if last.Parser() then HC.Max(before, last.level) else before
  }

  /** Two bounded recursions share the name they are filed under. */
  ghost predicate NamesMeet(kinds: seq<Kind>, i: nat, j: nat) {
    i < j < |kinds| && kinds[i].Bounded? && kinds[j].Bounded? && !kinds[i].parses && !kinds[j].parses && kinds[i].name == kinds[j].name
  }

  /** What a later recursion of the same name has replaced costs no more a level than the parser. */
  ghost predicate ReplacedAreLight(kinds: seq<Kind>) {
    forall i: nat, j: nat :: NamesMeet(kinds, i, j) ==> kinds[i].level <= ParserLevel(kinds)
  }

  ghost predicate OthersAccepted(kinds: seq<Kind>) {
    forall name :: name in OtherLevels(kinds) ==> OtherLevels(kinds)[name] <= ParserLevel(kinds)
  }

  lemma {:induction false} ParserLevelIsMax(kinds: seq<Kind>, k: nat)
    requires k < |kinds| && kinds[k].Parser()
    ensures kinds[k].level <= ParserLevel(kinds)
  {
    if k < |kinds| - 1 {
      ParserLevelIsMax(kinds[..|kinds| - 1], k);
    }
  }

  lemma {:induction false} OtherIsFiled(kinds: seq<Kind>, k: nat)
    requires k < |kinds| && kinds[k].Bounded? && !kinds[k].parses
    requires forall j :: k < j < |kinds| ==> !NamesMeet(kinds, k, j)
    ensures kinds[k].name in OtherLevels(kinds) && OtherLevels(kinds)[kinds[k].name] == kinds[k].level
  {
    var init := kinds[..|kinds| - 1];
    if k < |init| {
      assert forall j :: k < j < |init| ==> NamesMeet(init, k, j) ==> NamesMeet(kinds, k, j);
      OtherIsFiled(init, k);
      assert !NamesMeet(kinds, k, |kinds| - 1);
    }
  }

  lemma {:induction false} FiledIsALevel(kinds: seq<Kind>, name: Name) returns (k: nat)
    requires name in OtherLevels(kinds)
    ensures k < |kinds| && kinds[k].Bounded? && !kinds[k].parses && OtherLevels(kinds)[name] == kinds[k].level
  {
    var n := |kinds| - 1;
    if kinds[n].Bounded? && !kinds[n].parses && kinds[n].name == name {
      k := n;
    } else {
      k := FiledIsALevel(kinds[..n], name);
    }
  }

  /** A recursion no heavier than the parser's, unless one of the same name has replaced it in `other_levels`. */
  lemma AcceptedLevels(kinds: seq<Kind>, k: nat)
    requires k < |kinds| && OthersAccepted(kinds)
    requires kinds[k].Level() > ParserLevel(kinds)
    ensures exists j: nat :: NamesMeet(kinds, k, j)
  {
    if forall j: nat :: !NamesMeet(kinds, k, j) {
      if kinds[k].Parser() {
        ParserLevelIsMax(kinds, k);
      } else {
        OtherIsFiled(kinds, k);
      }
    }
  }

  /** No recursion outweighs the parser's exactly if none that is left in `other_levels` does, and none that
      was replaced in it. */
  lemma LevelsJudged(kinds: seq<Kind>)
    ensures (forall k: nat :: k < |kinds| ==> kinds[k].Level() <= ParserLevel(kinds)) <==> OthersAccepted(kinds) && ReplacedAreLight(kinds)
  {
    if forall k: nat :: k < |kinds| ==> kinds[k].Level() <= ParserLevel(kinds) {
      forall name | name in OtherLevels(kinds) ensures OtherLevels(kinds)[name] <= ParserLevel(kinds) {
        var k := FiledIsALevel(kinds, name);
        assert kinds[k].Level() <= ParserLevel(kinds);
      }
      forall i: nat, j: nat | NamesMeet(kinds, i, j) ensures kinds[i].level <= ParserLevel(kinds) {
        assert kinds[i].Level() <= ParserLevel(kinds);
      }
    } else {
      var k: nat :| k < |kinds| && kinds[k].Level() > ParserLevel(kinds);
      if OthersAccepted(kinds) { AcceptedLevels(kinds, k); }
    }
  }

  lemma LastKind(kinds: seq<Kind>, last: Kind)
    ensures ParserLevel(kinds + [last]) == if last.Parser() then HC.Max(ParserLevel(kinds), last.level) else ParserLevel(kinds)
    ensures OtherLevels(kinds + [last]) ==
              if last.Bounded? && !last.parses then OtherLevels(kinds)[last.name := last.level] else OtherLevels(kinds)
  {
    assert (kinds + [last])[..|kinds|] == kinds;
  }

  /** The largest entry seen so far on each side, and a chain that has it. */
  ghost predicate PickedParsing(front: Front, m: Measured) {
    forall key :: key in front && key.parser ==> m.chain != [] && m.rest >= front[key].cost
  }

  ghost predicate PickedOther(front: Front, depth: nat, m: Measured) {
    forall key :: key in front && !key.parser ==> m.otherChain != [] && m.otherRest >= front[key].cost + (depth + 1) * key.level
  }

  ghost predicate ParsingEntry(front: Front, key: Key, m: Measured) {
    key in front && key.parser && front[key] == Entry(m.rest, m.chain)
  }

  ghost predicate OtherEntry(front: Front, depth: nat, key: Key, m: Measured) {
    key in front && !key.parser && front[key].chain == m.otherChain && m.otherRest == front[key].cost + (depth + 1) * key.level
  }

  /** `m` differs from `m0` only by what the front offers, and never goes down. */
  ghost predicate Improves(front: Front, depth: nat, m0: Measured, m: Measured) {
    && m == m0.(rest := m.rest, chain := m.chain, otherRest := m.otherRest, otherChain := m.otherChain)
    && m.rest >= m0.rest && m.otherRest >= m0.otherRest
    && (m0.chain != [] ==> m.chain != []) && (m0.otherChain != [] ==> m.otherChain != [])
    && ((m.rest == m0.rest && m.chain == m0.chain) || exists key :: ParsingEntry(front, key, m))
    && ((m.otherRest == m0.otherRest && m.otherChain == m0.otherChain) || exists key :: OtherEntry(front, depth, key, m))
  }

  ghost predicate ChainsNotEmpty(front: Front) {
    forall key :: key in front ==> front[key].chain != []
  }

  method PickFrom(front: Front, depth: nat, m0: Measured) returns (m: Measured)
    requires ChainsNotEmpty(front)
    requires (m0.chain == [] ==> m0.rest == 0) && (m0.otherChain == [] ==> m0.otherRest == 0)
    ensures PickedParsing(front, m) && PickedOther(front, depth, m) && Improves(front, depth, m0, m)
  {
    m := m0;
    var keys := front.Keys;
    while keys != {}
      invariant keys <= front.Keys
      invariant forall key :: key in front && key !in keys && key.parser ==> m.chain != [] && m.rest >= front[key].cost
      invariant forall key :: key in front && key !in keys && !key.parser ==>
                  m.otherChain != [] && m.otherRest >= front[key].cost + (depth + 1) * key.level
      invariant m == m0.(rest := m.rest, chain := m.chain, otherRest := m.otherRest, otherChain := m.otherChain)
      invariant m.rest >= m0.rest && m.otherRest >= m0.otherRest
      invariant (m.chain == [] ==> m.rest == 0) && (m.otherChain == [] ==> m.otherRest == 0)
      invariant (m0.chain != [] ==> m.chain != []) && (m0.otherChain != [] ==> m.otherChain != [])
      invariant (m.rest == m0.rest && m.chain == m0.chain) || exists key :: ParsingEntry(front, key, m)
      invariant (m.otherRest == m0.otherRest && m.otherChain == m0.otherChain) || exists key :: OtherEntry(front, depth, key, m)
    {
      var key :| key in keys;
      keys := keys - {key};
      var entry := front[key];
      ghost var was := m;
      if key.parser {
        if entry.cost > m.rest || m.chain == [] {
          m := m.(rest := entry.cost, chain := entry.chain);
          assert ParsingEntry(front, key, m);
        }
        assert forall k :: OtherEntry(front, depth, k, was) ==> OtherEntry(front, depth, k, m);
      } else {
        var whole := entry.cost + (depth + 1) * key.level;
        if whole > m.otherRest || m.otherChain == [] {
          m := m.(otherRest := whole, otherChain := entry.chain);
          assert OtherEntry(front, depth, key, m);
        }
        assert forall k :: ParsingEntry(front, k, was) ==> ParsingEntry(front, k, m);
      }
    }
  }

  // ----- One thread, measured -----

  /** The condensation of what the roots reach, costed by the rules. */
  ghost predicate IsCosted(g: Graph, names: map<Title, Name>, rules: Rules, roots: seq<Title>, cs: seq<seq<Title>>, owner: map<Title, nat>, d: Dag) {
    && IsCondensation(g, roots, cs) && OwnsExactly(cs, owner) && IsDagOf(g, cs, owner, d.kinds, d)
    && (forall r :: r in roots ==> r in owner)
    && (forall k :: 0 <= k < |cs| ==> IsKind(g, names, rules, cs[k], d.kinds[k]))
  }

  ghost predicate FromRoot(roots: seq<Title>, owner: map<Title, nat>, n: nat) {
    exists r :: r in roots && r in owner && owner[r] == n
  }

  /** What a descent spends: its own frames, and the shared nesting limit's levels at the heaviest. */
  ghost function Spend(d: Dag, depth: nat, q: seq<nat>): nat {
    Own(d, q) + (depth + 1) * Heaviest(d, q)
  }

  ghost predicate FrontsPicked(d: Dag, depth: nat, best: seq<Front>, n: nat, m: Measured) {
    n < |best| && PickedParsing(best[n], m) && PickedOther(best[n], depth, m)
  }

  ghost predicate ParsingReal(d: Dag, roots: seq<Title>, owner: map<Title, nat>, m: Measured, q: seq<nat>) {
    IsDescent(d, q) && Ends(d, q) && FromRoot(roots, owner, q[0]) && Parses(d, q) && Own(d, q) == m.rest && Titles(d, q) == m.chain
  }

  ghost predicate OtherReal(d: Dag, depth: nat, roots: seq<Title>, owner: map<Title, nat>, m: Measured, q: seq<nat>) {
    && IsDescent(d, q) && Ends(d, q) && FromRoot(roots, owner, q[0]) && !Parses(d, q)
    && Spend(d, depth, q) == m.otherRest && Titles(d, q) == m.otherChain
  }

  /** What is reported is spent by a chain there is. */
  ghost predicate Attained(d: Dag, depth: nat, roots: seq<Title>, owner: map<Title, nat>, m: Measured) {
    && (if m.chain == [] then m.rest == 0 else exists q :: ParsingReal(d, roots, owner, m, q))
    && (if m.otherChain == [] then m.otherRest == 0 else exists q :: OtherReal(d, depth, roots, owner, m, q))
  }

  lemma {:induction false} MulMonotone(a: nat, b: nat, c: nat)
    requires a <= b
    ensures c * a <= c * b
  {
    if c > 0 { MulMonotone(a, b, c - 1); }
  }

  /** A descent costs no more than what was picked, if what dominates it does not outweigh the parser. */
  lemma PickedBounds(d: Dag, depth: nat, best: seq<Front>, n: nat, m: Measured, key: Key, q: seq<nat>)
    requires FrontsPicked(d, depth, best, n, m) && Dominates(d, best[n], key, q)
    requires key.parser ==> key.level <= m.level
    ensures Spend(d, depth, q) <= HC.Max(m.Worst(depth), m.otherRest)
  {
    MulMonotone(Heaviest(d, q), key.level, depth + 1);
    if key.parser { MulMonotone(key.level, m.level, depth + 1); }
  }

  /** No entry's level exceeds every component's. */
  lemma {:induction false} HeaviestAtMost(d: Dag, q: seq<nat>, level: nat)
    requires forall k :: k in q ==> d.Kind(k).Level() <= level
    ensures Heaviest(d, q) <= level
  {
    if q != [] {
      assert forall k :: k in q[1..] ==> k in q;
      HeaviestAtMost(d, q[1..], level);
    }
  }

  lemma {:induction false} HeaviestAtLeast(d: Dag, q: seq<nat>, k: nat)
    requires k in q
    ensures d.Kind(k).Level() <= Heaviest(d, q)
  {
    if q[0] != k { HeaviestAtLeast(d, q[1..], k); }
  }

  /** A chain of calls from a root, to the parser and on. */
  ghost predicate ParsesFrom(d: Dag, roots: seq<Title>, owner: map<Title, nat>, q: seq<nat>) {
    IsDescent(d, q) && FromRoot(roots, owner, q[0]) && Parses(d, q)
  }

  ghost predicate OnParsingChain(d: Dag, roots: seq<Title>, owner: map<Title, nat>, k: nat) {
    exists q :: ParsesFrom(d, roots, owner, q) && k in q
  }

  /** What was replaced in `other_levels` is light, or on no chain with the parser. */
  ghost predicate ReplacedAreHarmless(d: Dag, roots: seq<Title>, owner: map<Title, nat>) {
    forall i: nat, j: nat :: NamesMeet(d.kinds, i, j) ==> d.kinds[i].level <= ParserLevel(d.kinds) || !OnParsingChain(d, roots, owner, i)
  }

  /** With `other_levels` accepted, the parser is the heaviest on every chain it is on exactly if what was
      replaced is harmless. */
  lemma ChainsJudged(d: Dag, roots: seq<Title>, owner: map<Title, nat>)
    requires OthersAccepted(d.kinds)
    ensures (forall q :: ParsesFrom(d, roots, owner, q) ==> Heaviest(d, q) <= ParserLevel(d.kinds)) <==> ReplacedAreHarmless(d, roots, owner)
  {
    hide ParsesFrom, OthersAccepted;
    if ReplacedAreHarmless(d, roots, owner) {
      forall q | ParsesFrom(d, roots, owner, q) ensures Heaviest(d, q) <= ParserLevel(d.kinds) {
        forall k | k in q ensures d.Kind(k).Level() <= ParserLevel(d.kinds) {
          if d.Kind(k).Level() > ParserLevel(d.kinds) { AcceptedLevels(d.kinds, k); }
        }
        HeaviestAtMost(d, q, ParserLevel(d.kinds));
      }
    } else {
      var i: nat, j: nat :| NamesMeet(d.kinds, i, j) && d.kinds[i].level > ParserLevel(d.kinds) && OnParsingChain(d, roots, owner, i);
      var q :| ParsesFrom(d, roots, owner, q) && i in q;
      HeaviestAtLeast(d, q, i);
    }
  }

  /** The level of an entry with the parser on it is that of a chain there is. */
  lemma KeyAtMost(d: Dag, roots: seq<Title>, owner: map<Title, nat>, n: nat, front: Front, key: Key, level: nat)
    requires IsFront(d, n, front) && key in front && key.parser && FromRoot(roots, owner, n)
    requires forall q :: ParsesFrom(d, roots, owner, q) ==> Heaviest(d, q) <= level
    ensures key.level <= level
  {
    hide IsDescent, FromRoot;
    assert Real(d, n, key, front[key]);
    var q :| Realises(d, n, key, front[key], q);
    assert ParsesFrom(d, roots, owner, q);
  }

  lemma FrontChains(d: Dag, n: nat, front: Front)
    requires IsFront(d, n, front)
    ensures ChainsNotEmpty(front)
  {
    forall key | key in front ensures front[key].chain != [] {
      assert Real(d, n, key, front[key]);
      var q :| Realises(d, n, key, front[key], q);
    }
  }

  lemma ParsingImproved(d: Dag, depth: nat, roots: seq<Title>, owner: map<Title, nat>, n: nat, front: Front, m0: Measured, m: Measured)
    requires forall key :: key in front ==> Real(d, n, key, front[key])
    requires FromRoot(roots, owner, n) && Improves(front, depth, m0, m) && m.chain != []
    requires m0.chain != [] ==> exists q :: ParsingReal(d, roots, owner, m0, q)
    ensures exists q :: ParsingReal(d, roots, owner, m, q)
  {
    hide FromRoot, IsDescent;
    if m.rest == m0.rest && m.chain == m0.chain {
      var q :| ParsingReal(d, roots, owner, m0, q);
      assert ParsingReal(d, roots, owner, m, q);
    } else {
      var key :| ParsingEntry(front, key, m);
      assert Real(d, n, key, front[key]);
      var q :| Realises(d, n, key, front[key], q);
      assert ParsingReal(d, roots, owner, m, q);
    }
  }

  lemma OtherImproved(d: Dag, depth: nat, roots: seq<Title>, owner: map<Title, nat>, n: nat, front: Front, m0: Measured, m: Measured)
    requires forall key :: key in front ==> Real(d, n, key, front[key])
    requires FromRoot(roots, owner, n) && Improves(front, depth, m0, m) && m.otherChain != []
    requires m0.otherChain != [] ==> exists q :: OtherReal(d, depth, roots, owner, m0, q)
    ensures exists q :: OtherReal(d, depth, roots, owner, m, q)
  {
    hide FromRoot, IsDescent;
    if m.otherRest == m0.otherRest && m.otherChain == m0.otherChain {
      var q :| OtherReal(d, depth, roots, owner, m0, q);
      assert OtherReal(d, depth, roots, owner, m, q);
    } else {
      var key :| OtherEntry(front, depth, key, m);
      assert Real(d, n, key, front[key]);
      var q :| Realises(d, n, key, front[key], q);
      assert OtherReal(d, depth, roots, owner, m, q);
    }
  }

  lemma ImprovedAttained(d: Dag, depth: nat, roots: seq<Title>, owner: map<Title, nat>, n: nat, front: Front, m0: Measured, m: Measured)
    requires IsFront(d, n, front) && ChainsNotEmpty(front) && FromRoot(roots, owner, n)
    requires Attained(d, depth, roots, owner, m0) && Improves(front, depth, m0, m)
    ensures Attained(d, depth, roots, owner, m)
  {
    hide FromRoot, ParsingReal, OtherReal, Real, Covered;
    if m.chain != [] { ParsingImproved(d, depth, roots, owner, n, front, m0, m); }
    if m.otherChain != [] { OtherImproved(d, depth, roots, owner, n, front, m0, m); }
  }

  lemma StillPicked(d: Dag, depth: nat, best: seq<Front>, n: nat, front: Front, m0: Measured, m: Measured)
    requires FrontsPicked(d, depth, best, n, m0) && Improves(front, depth, m0, m)
    ensures FrontsPicked(d, depth, best, n, m)
  {
  }

  /** The deepest chains over every root. */
  method Pick(roots: seq<Title>, owner: map<Title, nat>, ghost d: Dag, depth: nat, best: seq<Front>, m0: Measured) returns (m: Measured)
    requires FrontsUpTo(d, best) && forall r :: r in roots ==> r in owner && owner[r] < |best|
    requires m0.chain == m0.otherChain == [] && m0.rest == m0.otherRest == 0
    ensures m == m0.(rest := m.rest, chain := m.chain, otherRest := m.otherRest, otherChain := m.otherChain)
    ensures forall r :: r in roots ==> FrontsPicked(d, depth, best, owner[r], m)
    ensures Attained(d, depth, roots, owner, m)
  {
    hide IsFront, FrontsPicked, Improves, PickedOther, PickedParsing, FromRoot, ParsingReal, OtherReal;
    m := m0;
    for i := 0 to |roots|
      invariant m == m0.(rest := m.rest, chain := m.chain, otherRest := m.otherRest, otherChain := m.otherChain)
      invariant forall j :: 0 <= j < i ==> FrontsPicked(d, depth, best, owner[roots[j]], m)
      invariant Attained(d, depth, roots, owner, m)
    {
      var n := owner[roots[i]];
      FrontChains(d, n, best[n]);
      var was := m;
      m := PickFrom(best[n], depth, was);
      ImprovedFields(best[n], depth, was, m);
      Picked(d, depth, best, n, m);
      IsARoot(roots, owner, i);
      ImprovedAttained(d, depth, roots, owner, n, best[n], was, m);
      forall j | 0 <= j < i ensures FrontsPicked(d, depth, best, owner[roots[j]], m) {
        StillPicked(d, depth, best, owner[roots[j]], best[n], was, m);
      }
    }
  }

  lemma ImprovedFields(front: Front, depth: nat, m0: Measured, m: Measured)
    requires Improves(front, depth, m0, m)
    ensures m == m0.(rest := m.rest, chain := m.chain, otherRest := m.otherRest, otherChain := m.otherChain)
  {
  }

  lemma Picked(d: Dag, depth: nat, best: seq<Front>, n: nat, m: Measured)
    requires n < |best| && PickedParsing(best[n], m) && PickedOther(best[n], depth, m)
    ensures FrontsPicked(d, depth, best, n, m)
  {
  }

  lemma IsARoot(roots: seq<Title>, owner: map<Title, nat>, i: nat)
    requires i < |roots| && roots[i] in owner
    ensures FromRoot(roots, owner, owner[roots[i]])
  {
    assert roots[i] in roots;
  }

  /** What the checks report, and nothing else. */
  ghost predicate IsProblem(unbounded: set<Title>, owner: map<Title, nat>, kinds: seq<Kind>, parses: bool, p: Problem) {
    match p
    case UnboundedFrame(title) => title in unbounded && title in owner
    case RunawayRecursion(k) => k < |kinds| && kinds[k].Runaway?
    case ReachesReader(k) => k < |kinds| && kinds[k].Bounded? && !parses
    case NoParser => parses && forall k :: 0 <= k < |kinds| ==> !kinds[k].Parser()
    case HeavierThanParser(name) => name in OtherLevels(kinds) && OtherLevels(kinds)[name] > ParserLevel(kinds)
  }

  /** What each check left behind. */
  ghost predicate NothingFound(unbounded: set<Title>, owner: map<Title, nat>, kinds: seq<Kind>, parses: bool) {
    && (forall n :: n in unbounded ==> n !in owner)
    && (forall k :: 0 <= k < |kinds| ==> !kinds[k].Runaway? && (kinds[k].Bounded? ==> parses))
    && (parses ==> exists k :: 0 <= k < |kinds| && kinds[k].Parser())
    && OthersAccepted(kinds)
  }

  /** Each problem is reported once. */
  ghost predicate ReportsOnce(problems: seq<Problem>) {
    forall i, j :: 0 <= i < j < |problems| ==> problems[i] != problems[j]
  }

  lemma NoProblemIs(unbounded: set<Title>, owner: map<Title, nat>, kinds: seq<Kind>, parses: bool, problems: seq<Problem>)
    requires forall p :: p in problems <==> IsProblem(unbounded, owner, kinds, parses, p)
    ensures problems == [] <==> NothingFound(unbounded, owner, kinds, parses)
  {
    if problems != [] {
      assert IsProblem(unbounded, owner, kinds, parses, problems[0]);
    } else {
      forall p ensures !IsProblem(unbounded, owner, kinds, parses, p) { assert p !in problems; }
      forall n | n in unbounded ensures n !in owner { assert !IsProblem(unbounded, owner, kinds, parses, UnboundedFrame(n)); }
      forall k | 0 <= k < |kinds| ensures !kinds[k].Runaway? && (kinds[k].Bounded? ==> parses) {
        assert !IsProblem(unbounded, owner, kinds, parses, RunawayRecursion(k)) && !IsProblem(unbounded, owner, kinds, parses, ReachesReader(k));
      }
      assert !IsProblem(unbounded, owner, kinds, parses, NoParser);
      forall name | name in OtherLevels(kinds) ensures OtherLevels(kinds)[name] <= ParserLevel(kinds) {
        assert !IsProblem(unbounded, owner, kinds, parses, HeavierThanParser(name));
      }
    }
  }

  /** The frames no static walk can bound, among what the roots reach. */
  method UnboundedFrames(unbounded: set<Title>, owner: map<Title, nat>) returns (problems: seq<Problem>)
    ensures forall p :: p in problems <==> p.UnboundedFrame? && p.title in unbounded && p.title in owner
    ensures ReportsOnce(problems)
  {
    problems := [];
    var titles := Sorted(unbounded * owner.Keys);
    for i := 0 to |titles|
      invariant |problems| == i && forall j :: 0 <= j < i ==> problems[j] == UnboundedFrame(titles[j])
    {
      problems := problems + [UnboundedFrame(titles[i])];
    }
    forall p ensures p in problems <==> p.UnboundedFrame? && p.title in unbounded && p.title in owner {
      if p.UnboundedFrame? && p.title in titles {
        var j :| 0 <= j < |titles| && titles[j] == p.title;
        assert problems[j] == p;
      }
    }
  }

  /** Cost every component, and note the ones that cannot be costed. */
  method CostAll(g: Graph, names: map<Title, Name>, rules: Rules, cs: seq<seq<Title>>, parses: bool) returns (kinds: seq<Kind>, problems: seq<Problem>)
    requires forall k :: 0 <= k < |cs| ==> cs[k] != []
    ensures |kinds| == |cs| && forall k :: 0 <= k < |cs| ==> IsKind(g, names, rules, cs[k], kinds[k])
    ensures forall p :: p in problems <==> (p.RunawayRecursion? || p.ReachesReader?) && IsProblem({}, map[], kinds, parses, p)
    ensures ReportsOnce(problems)
  {
    hide IsKind;
    kinds, problems := [], [];
    for n := 0 to |cs|
      invariant |kinds| == n && forall k :: 0 <= k < n ==> IsKind(g, names, rules, cs[k], kinds[k])
      invariant forall p :: p in problems <==> (p.RunawayRecursion? || p.ReachesReader?) && IsProblem({}, map[], kinds, parses, p)
      invariant ReportsOnce(problems)
    {
      var kind := KindOf(g, names, rules, cs[n]);
      ghost var was := kinds;
      kinds := kinds + [kind];
      assert forall k :: 0 <= k < |was| ==> kinds[k] == was[k];
      assert kinds[n] == kind;
      if kind.Runaway? {
        assert RunawayRecursion(n) !in problems;
        problems := problems + [RunawayRecursion(n)];
      } else if kind.Bounded? && !parses {
        assert ReachesReader(n) !in problems;
        problems := problems + [ReachesReader(n)];
      }
    }
  }

  /** The parser's level, the other recursions', and what is wrong between them. */
  method JudgeLevels(kinds: seq<Kind>, parses: bool) returns (level: nat, others: map<Name, nat>, problems: seq<Problem>)
    ensures level == ParserLevel(kinds) && others == OtherLevels(kinds)
    ensures forall p :: p in problems <==> (p.NoParser? || p.HeavierThanParser?) && IsProblem({}, map[], kinds, parses, p)
    ensures ReportsOnce(problems)
  {
    level, others := 0, map[];
    var parser := false;
    for n := 0 to |kinds|
      invariant level == ParserLevel(kinds[..n]) && others == OtherLevels(kinds[..n])
      invariant parser <==> exists k :: 0 <= k < n && kinds[k].Parser()
    {
      assert kinds[..n + 1][..n] == kinds[..n];
      if kinds[n].Parser() {
        level, parser := HC.Max(level, kinds[n].level), true;
      } else if kinds[n].Bounded? {
        others := others[kinds[n].name := kinds[n].level];
      }
    }
    assert kinds[..|kinds|] == kinds;
    problems := if !parser && parses then [NoParser] else [];
    var names := others.Keys;
    while names != {}
      invariant names <= others.Keys && ReportsOnce(problems)
      invariant forall p :: p in problems <==>
                  (p == NoParser && parses && !parser) || (p.HeavierThanParser? && p.name in others && p.name !in names && others[p.name] > level)
    {
      var name :| name in names;
      names := names - {name};
      if others[name] > level {
        assert HeavierThanParser(name) !in problems;
        problems := problems + [HeavierThanParser(name)];
      }
    }
  }

  lemma RootsOwned(g: Graph, roots: seq<Title>, cs: seq<seq<Title>>, owner: map<Title, nat>)
    requires IsCondensation(g, roots, cs) && OwnsExactly(cs, owner)
    ensures forall r :: r in roots ==> r in owner
  {
    forall r | r in roots ensures r in owner {
      ReachSelf(g, r);
      assert RootReaches(g, roots, r);
      var i :| 0 <= i < |cs| && r in cs[i];
    }
  }

  lemma NotEmpty(g: Graph, roots: seq<Title>, cs: seq<seq<Title>>)
    requires IsCondensation(g, roots, cs)
    ensures forall k :: 0 <= k < |cs| ==> cs[k] != []
    ensures PairwiseDisjoint(cs) && CalleesFirst(g, cs)
  {
    assert forall k :: 0 <= k < |cs| ==> IsComponent(g, cs[k]);
  }

  /** Every descent from a root costs at most the reported worst, when nothing was found wrong. */
  ghost predicate WithinBudget(d: Dag, depth: nat, roots: seq<Title>, owner: map<Title, nat>, m: Measured) {
    forall q :: IsDescent(d, q) && FromRoot(roots, owner, q[0]) ==> Spend(d, depth, q) <= HC.Max(m.Worst(depth), m.otherRest)
  }

  /** Where no two functions that are reached share a label, nothing is replaced at all. */
  lemma DistinctLabelsAreHarmless(g: Graph, names: map<Title, Name>, rules: Rules, roots: seq<Title>, cs: seq<seq<Title>>, owner: map<Title, nat>, d: Dag)
    requires IsCosted(g, names, rules, roots, cs, owner, d)
    requires forall a, b :: a in owner && b in owner && a != b ==> NameOf(names, a) != NameOf(names, b)
    ensures ReplacedAreHarmless(d, roots, owner)
  {
    hide IsCondensation, OnParsingChain, ParserLevel, IsKind, NamesMeet, Links;
    forall i: nat, j: nat ensures !NamesMeet(d.kinds, i, j) {
      if i < j < |cs| {
        LabelsApart(g, names, rules, cs, owner, d.kinds, i, j);
      } else {
        NoneToMeet(d.kinds, i, j);
      }
    }
  }

  lemma NoneToMeet(kinds: seq<Kind>, i: nat, j: nat)
    requires !(i < j < |kinds|)
    ensures !NamesMeet(kinds, i, j)
  {
  }

  lemma LabelsApart(g: Graph, names: map<Title, Name>, rules: Rules, cs: seq<seq<Title>>, owner: map<Title, nat>, kinds: seq<Kind>, i: nat, j: nat)
    requires OwnsExactly(cs, owner) && |kinds| == |cs| && i < j < |cs| && cs[i] != [] && cs[j] != []
    requires IsKind(g, names, rules, cs[i], kinds[i]) && IsKind(g, names, rules, cs[j], kinds[j])
    requires forall a, b :: a in owner && b in owner && a != b ==> NameOf(names, a) != NameOf(names, b)
    ensures !NamesMeet(kinds, i, j)
  {
    hide IsKind, NameOf;
    if kinds[i].Bounded? && kinds[j].Bounded? {
      var a := LabelledBy(g, names, rules, cs[i], kinds[i]);
      var b := LabelledBy(g, names, rules, cs[j], kinds[j]);
      assert owner[a] == i && owner[b] == j;
    }
  }

  lemma LabelledBy(g: Graph, names: map<Title, Name>, rules: Rules, c: seq<Title>, kind: Kind) returns (n: Title)
    requires c != [] && IsKind(g, names, rules, c, kind) && kind.Bounded?
    ensures n in c && NameOf(names, n) == kind.name
  {
    n :| n in c && NameOf(names, n) == kind.name;
  }

  lemma NothingLost(d: Dag, depth: nat, roots: seq<Title>, owner: map<Title, nat>, best: seq<Front>, m: Measured)
    requires FrontsUpTo(d, best) && forall r :: r in roots && r in owner ==> FrontsPicked(d, depth, best, owner[r], m)
    requires m.level == ParserLevel(d.kinds) && OthersAccepted(d.kinds) && ReplacedAreHarmless(d, roots, owner)
    ensures WithinBudget(d, depth, roots, owner, m)
  {
    hide PickedParsing, PickedOther, Covered, Real, Dominates, ReplacedAreHarmless, OthersAccepted, ParsesFrom;
    ChainsJudged(d, roots, owner);
    forall q | IsDescent(d, q) && FromRoot(roots, owner, q[0])
      ensures Spend(d, depth, q) <= HC.Max(m.Worst(depth), m.otherRest)
    {
      var n := q[0];
      assert FrontsPicked(d, depth, best, n, m);
      assert IsFront(d, n, best[n]);
      var key := DominatedBy(d, best[n], q);
      if key.parser { KeyAtMost(d, roots, owner, n, best[n], key, m.level); }
      PickedBounds(d, depth, best, n, m, key, q);
    }
  }

  lemma DominatedBy(d: Dag, front: Front, q: seq<nat>) returns (key: Key)
    requires Covered(d, front, q)
    ensures Dominates(d, front, key, q) && key in front
  {
    key :| Dominates(d, front, key, q);
  }

  /** An entry with the parser on it, of what a root reaches, that costs more than was picked. */
  ghost predicate Outspends(depth: nat, best: seq<Front>, roots: seq<Title>, owner: map<Title, nat>, m: Measured, r: Title, key: Key) {
    && r in roots && r in owner && owner[r] < |best| && key in best[owner[r]] && key.parser
    && best[owner[r]][key].cost + (depth + 1) * key.level > HC.Max(m.Worst(depth), m.otherRest)
  }

  /** Whatever the levels are, no chain spends more than what is picked exactly if no parsing entry does. */
  lemma BudgetIsDecidable(d: Dag, depth: nat, roots: seq<Title>, owner: map<Title, nat>, best: seq<Front>, m: Measured)
    requires FrontsUpTo(d, best) && forall r :: r in roots && r in owner ==> FrontsPicked(d, depth, best, owner[r], m)
    ensures WithinBudget(d, depth, roots, owner, m) <==> forall r, key :: !Outspends(depth, best, roots, owner, m, r, key)
  {
    hide PickedParsing, PickedOther, Covered, Real;
    if r, key :| Outspends(depth, best, roots, owner, m, r, key) {
      var n := owner[r];
      assert IsFront(d, n, best[n]);
      var q := RealisedBy(d, n, best[n], key);
      assert FromRoot(roots, owner, n);
    } else {
      forall q | IsDescent(d, q) && FromRoot(roots, owner, q[0])
        ensures Spend(d, depth, q) <= HC.Max(m.Worst(depth), m.otherRest)
      {
        var n := q[0];
        assert FrontsPicked(d, depth, best, n, m);
        var r :| r in roots && r in owner && owner[r] == n;
        assert IsFront(d, n, best[n]);
        var key := DominatedBy(d, best[n], q);
        assert !Outspends(depth, best, roots, owner, m, r, key);
        MulMonotone(Heaviest(d, q), key.level, depth + 1);
        if !key.parser { PickedBounds(d, depth, best, n, m, key, q); }
      }
    }
  }

  lemma RealisedBy(d: Dag, n: nat, front: Front, key: Key) returns (q: seq<nat>)
    requires IsFront(d, n, front) && key in front
    ensures Realises(d, n, key, front[key], q)
  {
    assert Real(d, n, key, front[key]);
    q :| Realises(d, n, key, front[key], q);
  }

  /** A report on one thread, whose functions are costed by their components: each problem there is
      is reported, once, and no other; what the report says is spent by a chain there is; and unless a problem is reported, or a
      heavy recursion was replaced in `other_levels` by one of its name, no chain spends more. */
  ghost predicate IsReport(g: Graph, names: map<Title, Name>, unbounded: set<Title>, rules: Rules, depth: nat, roots: seq<Title>, parses: bool,
                           m: Measured, cs: seq<seq<Title>>, owner: map<Title, nat>, d: Dag) {
    && IsCosted(g, names, rules, roots, cs, owner, d)
    && (forall p :: p in m.problems <==> IsProblem(unbounded, owner, d.kinds, parses, p)) && ReportsOnce(m.problems)
    && m.level == ParserLevel(d.kinds)
    && Attained(d, depth, roots, owner, m)
    && (m.problems == [] && ReplacedAreHarmless(d, roots, owner) ==> WithinBudget(d, depth, roots, owner, m))
  }

  /** Measure what is reachable from `roots`: components, their costs, the fronts, and the verdict on them. */
  method MeasureThread(g: Graph, names: map<Title, Name>, unbounded: set<Title>, rules: Rules, depth: nat, roots: seq<Title>, parses: bool)
    returns (m: Measured)
    ensures exists cs, owner, d :: IsReport(g, names, unbounded, rules, depth, roots, parses, m, cs, owner, d)
  {
    hide IsCondensation, IsDagOf, OwnsExactly, IsKind, Attained, WithinBudget, FrontsUpTo, OthersAccepted, FrontsPicked, IsProblem, ReportsOnce, ReplacedAreHarmless;
    var components := StronglyConnected(g, roots);
    NotEmpty(g, roots, components);
    var owners := OwnersOf(components);
    RootsOwned(g, roots, components, owners);
    OwnedInRange(components, owners);
    var frames := UnboundedFrames(unbounded, owners);
    var kinds, recursions := CostAll(g, names, rules, components, parses);
    ghost var d := BuildDag(g, components, owners, kinds);
    DagKinds(g, components, owners, kinds, d);
    var best := FrontsOf(g, components, owners, kinds, d);
    var blank := Measured([], 0, 0, map[], 0, [], []);
    m := Pick(roots, owners, d, depth, best, blank);
    var level, others, levels := JudgeLevels(kinds, parses);
    var picked := m;
    m := m.(level := level, otherLevels := others, problems := frames + recursions + levels);
    SameChains(d, depth, roots, owners, best, picked, m);
    AllReported(unbounded, owners, kinds, parses, frames, recursions, levels);
    NoProblemIs(unbounded, owners, kinds, parses, m.problems);
    if m.problems == [] && ReplacedAreHarmless(d, roots, owners) {
      NothingLost(d, depth, roots, owners, best, m);
    }
    assert IsReport(g, names, unbounded, rules, depth, roots, parses, m, components, owners, d);
  }

  lemma AllReported(unbounded: set<Title>, owner: map<Title, nat>, kinds: seq<Kind>, parses: bool,
                    frames: seq<Problem>, recursions: seq<Problem>, levels: seq<Problem>)
    requires ReportsOnce(frames) && ReportsOnce(recursions) && ReportsOnce(levels)
    requires forall p :: p in frames <==> p.UnboundedFrame? && p.title in unbounded && p.title in owner
    requires forall p :: p in recursions <==> (p.RunawayRecursion? || p.ReachesReader?) && IsProblem({}, map[], kinds, parses, p)
    requires forall p :: p in levels <==> (p.NoParser? || p.HeavierThanParser?) && IsProblem({}, map[], kinds, parses, p)
    ensures var problems := frames + recursions + levels;
            ReportsOnce(problems) && forall p :: p in problems <==> IsProblem(unbounded, owner, kinds, parses, p)
  {
    var problems := frames + recursions + levels;
    forall p ensures p in problems <==> IsProblem(unbounded, owner, kinds, parses, p) {
      assert p in problems <==> p in frames || p in recursions || p in levels;
    }
    forall i, j | 0 <= i < j < |problems| ensures problems[i] != problems[j] {
      assert i < |frames| ==> problems[i] in frames;
      assert j < |frames| ==> problems[j] in frames;
      assert |frames| <= i < |frames| + |recursions| ==> problems[i] in recursions;
      assert |frames| <= j < |frames| + |recursions| ==> problems[j] in recursions;
      assert |frames| + |recursions| <= j ==> problems[j] in levels;
    }
  }

  lemma OwnedInRange(cs: seq<seq<Title>>, owner: map<Title, nat>)
    requires OwnsExactly(cs, owner)
    ensures forall n :: n in owner ==> owner[n] < |cs|
  {
  }

  lemma DagKinds(g: Graph, cs: seq<seq<Title>>, owner: map<Title, nat>, kinds: seq<Kind>, d: Dag)
    requires IsDagOf(g, cs, owner, kinds, d)
    ensures d.kinds == kinds
  {
  }

  lemma SameChains(d: Dag, depth: nat, roots: seq<Title>, owner: map<Title, nat>, best: seq<Front>, m0: Measured, m: Measured)
    requires m.rest == m0.rest && m.chain == m0.chain && m.otherRest == m0.otherRest && m.otherChain == m0.otherChain
    ensures Attained(d, depth, roots, owner, m0) ==> Attained(d, depth, roots, owner, m)
    ensures forall n :: FrontsPicked(d, depth, best, n, m0) ==> FrontsPicked(d, depth, best, n, m)
  {
    if Attained(d, depth, roots, owner, m0) {
      if m.chain != [] {
        var q :| ParsingReal(d, roots, owner, m0, q);
        assert ParsingReal(d, roots, owner, m, q);
      }
      if m.otherChain != [] {
        var q :| OtherReal(d, depth, roots, owner, m0, q);
        assert OtherReal(d, depth, roots, owner, m, q);
      }
    }
  }

  // ----- What a real stack of calls costs -----

  /** What bounds the frames a component can put on the stack at once. */
  datatype Sort = Once | BySize | ByDepth | ByNothing

  ghost function SortOf(d: Dag, k: nat): Sort {
    match d.Kind(k)
    case Plain(_) => Once
    case Sized(_) => BySize
    case Bounded(_, _, _) => ByDepth
    case Runaway => ByNothing
  }

  ghost function OwnerOf(owner: map<Title, nat>, n: Title): nat {
    if n in owner then owner[n] else 0
  }

  /** The frames on a stack of calls that belong to components of one sort. */
  ghost function Frames(g: Graph, owner: map<Title, nat>, d: Dag, sort: Sort, p: seq<Title>): nat {
    if p == [] then 0
    else (if SortOf(d, OwnerOf(owner, p[0])) == sort then FrameOf(g, p[0]) else 0) + Frames(g, owner, d, sort, p[1..])
  }

  /** The components a stack of calls passes through. */
  ghost function Passes(owner: map<Title, nat>, p: seq<Title>): seq<nat> {
    if p == [] then []
    else
      var rest := Passes(owner, p[1..]);
      if rest != [] && rest[0] == OwnerOf(owner, p[0]) then rest else [OwnerOf(owner, p[0])] + rest
  }


  /** What the components passed through contribute on their own, of one sort. */
  ghost function OwnOf(d: Dag, sort: Sort, q: seq<nat>): nat {
    if q == [] then 0 else (if SortOf(d, q[0]) == sort then d.Kind(q[0]).Own() else 0) + OwnOf(d, sort, q[1..])
  }

  /** The recursions on the stack stay inside their bounds: those bounded by the size of what they
      walk inside the cost they were given, and those bounded by the nesting limit, which they
      share, inside one trip a level and one more at the heaviest of them. */
  ghost predicate RecursionsBounded(g: Graph, owner: map<Title, nat>, d: Dag, depth: nat, p: seq<Title>) {
    var q := Passes(owner, p);
    && Frames(g, owner, d, BySize, p) <= OwnOf(d, BySize, q)
    && Frames(g, owner, d, ByDepth, p) <= (depth + 1) * Heaviest(d, q)
  }

  ghost function Total(g: Graph, p: seq<Title>): nat {
    if p == [] then 0 else FrameOf(g, p[0]) + Total(g, p[1..])
  }

  lemma TailIsPath(g: Graph, p: seq<Title>)
    requires IsPath(g, p) && |p| > 1
    ensures IsPath(g, p[1..]) && p[1] in Callees(g, p[0])
  {
    assert forall i :: 0 <= i < |p| - 1 ==> p[1..][i] == p[i + 1];
  }

  /** A stack of calls passes through components along the links of the condensation. */
  lemma {:induction false} PassesDescend(g: Graph, cs: seq<seq<Title>>, owner: map<Title, nat>, d: Dag, p: seq<Title>)
    requires OwnsExactly(cs, owner) && IsDagOf(g, cs, owner, d.kinds, d)
    requires IsPath(g, p) && forall n :: n in p ==> n in owner
    ensures IsDescent(d, Passes(owner, p)) && Passes(owner, p)[0] == owner[p[0]]
  {
    assert forall n :: n in p[1..] ==> n in p;
    if |p| == 1 {
      assert p[1..] == [];
      assert Passes(owner, p) == [owner[p[0]]];
    } else {
      TailIsPath(g, p);
      PassesDescend(g, cs, owner, d, p[1..]);
      var rest := Passes(owner, p[1..]);
      var n, t := owner[p[0]], owner[p[1]];
      if t != n {
        assert t in Links(g, cs, owner, n) by { assert p[0] in cs[n] && p[1] in Callees(g, p[0]); }
        assert ([n] + rest)[1..] == rest;
      }
    }
  }

  /** Every frame is of one of the three sorts. */
  lemma {:induction false} FramesSplit(g: Graph, owner: map<Title, nat>, d: Dag, p: seq<Title>)
    requires forall n :: n in p ==> n in owner && owner[n] < |d.kinds| && !d.kinds[owner[n]].Runaway?
    ensures Total(g, p) == Frames(g, owner, d, Once, p) + Frames(g, owner, d, BySize, p)
                           + Frames(g, owner, d, ByDepth, p)
  {
    if p != [] {
      assert p[0] in p && forall n :: n in p[1..] ==> n in p;
      FramesSplit(g, owner, d, p[1..]);
    }
  }

  lemma {:induction false} OwnSplits(d: Dag, q: seq<nat>)
    ensures Own(d, q) == OwnOf(d, Once, q) + OwnOf(d, BySize, q)
  {
    if q != [] {
      OwnSplits(d, q[1..]);
    }
  }

  /** A component that does not recurse is on the stack once for each time it is passed through. */
  lemma {:induction false} PlainOnce(g: Graph, names: map<Title, Name>, rules: Rules, cs: seq<seq<Title>>, owner: map<Title, nat>, d: Dag, p: seq<Title>)
    requires OwnsExactly(cs, owner) && IsPath(g, p) && |d.kinds| == |cs|
    requires forall k :: 0 <= k < |cs| ==> cs[k] != [] && IsKind(g, names, rules, cs[k], d.kinds[k])
    requires forall n :: n in p ==> n in owner
    ensures Frames(g, owner, d, Once, p) == OwnOf(d, Once, Passes(owner, p))
  {
    assert forall n :: n in p[1..] ==> n in p;
    var n := owner[p[0]];
    PlainFrame(g, names, rules, cs, owner, d, p[0]);
    if |p| == 1 {
      assert p[1..] == [];
      assert Passes(owner, p) == [n];
      assert [n][1..] == [];
    } else {
      TailIsPath(g, p);
      PlainOnce(g, names, rules, cs, owner, d, p[1..]);
      var rest := Passes(owner, p[1..]);
      assert ([n] + rest)[1..] == rest;
      if owner[p[1]] == n {
        SameComponent(g, names, rules, cs, owner, d, p[0], p[1]);
      }
      PassesHead(owner, p[1..]);
    }
  }

  lemma PassesHead(owner: map<Title, nat>, p: seq<Title>)
    requires p != [] && forall n :: n in p ==> n in owner
    ensures Passes(owner, p) != [] && Passes(owner, p)[0] == owner[p[0]]
  {
  }

  lemma PlainFrame(g: Graph, names: map<Title, Name>, rules: Rules, cs: seq<seq<Title>>, owner: map<Title, nat>, d: Dag, n: Title)
    requires OwnsExactly(cs, owner) && |d.kinds| == |cs| && n in owner
    requires forall k :: 0 <= k < |cs| ==> cs[k] != [] && IsKind(g, names, rules, cs[k], d.kinds[k])
    ensures SortOf(d, owner[n]) == Once ==> d.Kind(owner[n]).Own() == FrameOf(g, n)
  {
    var c := cs[owner[n]];
    assert IsKind(g, names, rules, c, d.kinds[owner[n]]);
    assert n in c;
  }

  /** One call inside a component makes it a recursion. */
  lemma SameComponent(g: Graph, names: map<Title, Name>, rules: Rules, cs: seq<seq<Title>>, owner: map<Title, nat>, d: Dag, a: Title, b: Title)
    requires OwnsExactly(cs, owner) && |d.kinds| == |cs| && a in owner && b in owner && owner[a] == owner[b] && b in Callees(g, a)
    requires forall k :: 0 <= k < |cs| ==> cs[k] != [] && IsKind(g, names, rules, cs[k], d.kinds[k])
    ensures SortOf(d, owner[a]) != Once
  {
    var c := cs[owner[a]];
    assert IsKind(g, names, rules, c, d.kinds[owner[a]]);
    assert a in c && b in c;
  }

  /** Everything on a stack of calls from a root is owned by some component. */
  lemma OnStackIsOwned(g: Graph, roots: seq<Title>, cs: seq<seq<Title>>, owner: map<Title, nat>, p: seq<Title>, i: nat)
    requires IsCondensation(g, roots, cs) && OwnsExactly(cs, owner)
    requires IsPath(g, p) && p[0] in roots && i < |p|
    ensures p[i] in owner
  {
    hide IsComponent, CalleesFirst, PairwiseDisjoint;
    assert PathBetween(g, p[..i + 1], p[0], p[i]);
    assert RootReaches(g, roots, p[i]);
    assert Emitted(cs, p[i]);
  }

  /** The tool's promise: a stack of calls from a root, whose recursions stay inside their bounds,
      takes no more than the larger of the two chains reported. */
  lemma StackFits(g: Graph, names: map<Title, Name>, rules: Rules, roots: seq<Title>, cs: seq<seq<Title>>, owner: map<Title, nat>,
                  d: Dag, depth: nat, m: Measured, p: seq<Title>)
    requires IsCosted(g, names, rules, roots, cs, owner, d) && WithinBudget(d, depth, roots, owner, m)
    requires forall k :: 0 <= k < |d.kinds| ==> !d.kinds[k].Runaway?
    requires IsPath(g, p) && p[0] in roots
    requires RecursionsBounded(g, owner, d, depth, p)
    ensures Total(g, p) <= HC.Max(m.Worst(depth), m.otherRest)
  {
    hide IsCondensation, IsKind, IsDescent;
    forall n | n in p ensures n in owner {
      var i :| 0 <= i < |p| && p[i] == n;
      OnStackIsOwned(g, roots, cs, owner, p, i);
    }
    OwnedInRange(cs, owner);
    var q := Passes(owner, p);
    PassesDescend(g, cs, owner, d, p);
    FramesSplit(g, owner, d, p);
    OwnSplits(d, q);
    PlainOnce(g, names, rules, cs, owner, d, p);
    assert FromRoot(roots, owner, q[0]);
    assert Spend(d, depth, q) <= HC.Max(m.Worst(depth), m.otherRest);
  }

  /** The same of a report with no problem in it. */
  lemma ReportedStackFits(g: Graph, names: map<Title, Name>, unbounded: set<Title>, rules: Rules, depth: nat, roots: seq<Title>, parses: bool,
                          m: Measured, cs: seq<seq<Title>>, owner: map<Title, nat>, d: Dag, p: seq<Title>)
    requires IsReport(g, names, unbounded, rules, depth, roots, parses, m, cs, owner, d)
    requires m.problems == [] && ReplacedAreHarmless(d, roots, owner)
    requires IsPath(g, p) && p[0] in roots && RecursionsBounded(g, owner, d, depth, p)
    ensures Total(g, p) <= HC.Max(m.Worst(depth), m.otherRest)
  {
    hide IsCosted, WithinBudget, RecursionsBounded, Attained, ReplacedAreHarmless;
    NoProblemIs(unbounded, owner, d.kinds, parses, m.problems);
    StackFits(g, names, rules, roots, cs, owner, d, depth, m, p);
  }
}
