/** `strongly_connected` (scripts/stack-budget.py): Tarjan's algorithm with an explicit work list,
    proved to return exactly the strongly connected components that the roots reach. */
module Tarjan {
  import opened CallGraph

  /** One entry of the work list: a node and what its iterator has not yet produced. */
  datatype Visit = Visit(node: Title, rest: seq<Title>)

  /** The function's local variables, gathered so that the steps can be named. */
  datatype State = State(
    index: map<Title, nat>, low: map<Title, nat>, onStack: set<Title>, stack: seq<Title>,
    components: seq<seq<Title>>, work: seq<Visit>, counter: nat)

  // ----- What the result means -----

  /** `c` holds exactly the nodes that its members both reach and are reached from. */
  ghost predicate IsComponent(g: Graph, c: seq<Title>) {
    && c != []
    && Distinct(c)
    && forall u, w :: u in c ==> (w in c <==> Reach(g, u, w) && Reach(g, w, u))
  }

  ghost predicate Emitted(cs: seq<seq<Title>>, n: Title) {
    exists i :: 0 <= i < |cs| && n in cs[i]
  }

  ghost predicate EmittedBy(cs: seq<seq<Title>>, k: nat, n: Title) {
    exists i :: 0 <= i <= k && i < |cs| && n in cs[i]
  }

  ghost predicate CalleesFirst(g: Graph, cs: seq<seq<Title>>) {
    forall k, u, w :: 0 <= k < |cs| && u in cs[k] && w in Callees(g, u) ==> EmittedBy(cs, k, w)
  }

  ghost predicate PairwiseDisjoint(cs: seq<seq<Title>>) {
    forall i, j, n :: 0 <= i < j < |cs| && n in cs[i] ==> n !in cs[j]
  }

  ghost predicate RootReaches(g: Graph, roots: seq<Title>, n: Title) {
    exists r :: r in roots && Reach(g, r, n)
  }

  // ----- The invariant -----

  ghost predicate Indexed(s: State) {
    && (forall n :: n in s.index ==> s.index[n] < s.counter)
    && (forall n :: n in s.onStack ==> n in s.index)
    && s.low.Keys == s.index.Keys
  }

  /** The stack holds exactly the marked nodes, in index order. */
  ghost predicate StackSorted(s: State) {
    && (forall n :: n in s.onStack <==> n in s.stack)
    && (forall n :: n in s.stack ==> n in s.index)
    && (forall i, j :: 0 <= i < j < |s.stack| ==> s.index[s.stack[i]] < s.index[s.stack[j]])
  }

  ghost predicate Partitioned(s: State) {
    && (forall n :: n in s.index <==> n in s.onStack || Emitted(s.components, n))
    && (forall n :: n in s.onStack ==> !Emitted(s.components, n))
  }

  ghost predicate IsOpen(s: State, n: Title) {
    exists i :: 0 <= i < |s.work| && s.work[i].node == n
  }

  /** The nodes on the work list lie on the stack, in index order, from its bottom. */
  ghost predicate OpenOnStack(s: State) {
    && (forall i :: 0 <= i < |s.work| ==> s.work[i].node in s.onStack && s.work[i].node in s.index)
    && (forall i, j :: 0 <= i < j < |s.work| ==> s.index[s.work[i].node] < s.index[s.work[j].node])
    && (forall n :: n in s.onStack ==> |s.work| > 0 && n in s.index && s.index[s.work[0].node] <= s.index[n])
  }

  ghost predicate RestAreCalls(g: Graph, s: State) {
    && (forall i, n :: 0 <= i < |s.work| && n in s.work[i].rest ==> n in Callees(g, s.work[i].node))
    && (forall i :: 0 <= i < |s.work| ==> Ascending(s.work[i].rest))
  }

  /** Every call already followed, but for calls to the nodes of `but`, leads to a node already
      indexed. */
  ghost predicate Followed(g: Graph, s: State, but: set<Title>) {
    && (forall n, w :: n in s.index && !IsOpen(s, n) && w in Callees(g, n) ==> w in s.index || w in but)
    && (forall i, w :: 0 <= i < |s.work| && w in Callees(g, s.work[i].node) && w !in s.work[i].rest
                       ==> w in s.index || w in but)
  }

  /** `u` is on the stack, no lower than the open node `i`. */
  ghost predicate Above(s: State, i: int, u: Title) {
    && 0 <= i < |s.work| && u in s.onStack && u in s.index && s.work[i].node in s.index
    && s.index[s.work[i].node] <= s.index[u]
  }

  /** `u` is on the stack between the open node `i` and the next open one. */
  ghost predicate Within(s: State, i: int, u: Title) {
    && Above(s, i, u)
    && (i + 1 < |s.work| ==> s.work[i + 1].node in s.index && s.index[u] < s.index[s.work[i + 1].node])
  }

  /** An open node reaches everything above it; what lies up to the next open one reaches it. */
  ghost predicate Mutual(g: Graph, s: State) {
    && (forall i, u :: Above(s, i, u) ==> Reach(g, s.work[i].node, u))
    && (forall i, u :: Within(s, i, u) ==> Reach(g, u, s.work[i].node))
  }

  ghost predicate LowWitness(g: Graph, s: State, i: int, w: Title) {
    && 0 <= i < |s.work| && s.work[i].node in s.low && s.work[i].node in s.index
    && s.low[s.work[i].node] <= s.index[s.work[i].node]
    && w in s.onStack && w in s.index && s.index[w] == s.low[s.work[i].node] && Reach(g, s.work[i].node, w)
  }

  ghost predicate HasLow(g: Graph, s: State, i: int) {
    exists w :: LowWitness(g, s, i, w)
  }

  ghost predicate LowSound(g: Graph, s: State) {
    forall i :: 0 <= i < |s.work| ==> HasLow(g, s, i)
  }

  /** A call from between two open nodes that was already followed and lands on the stack. */
  ghost predicate FollowedCall(g: Graph, s: State, i: int, u: Title, w: Title) {
    && Within(s, i, u) && w in Callees(g, u) && w in s.onStack
    && (u == s.work[i].node ==> w !in s.work[i].rest)
  }

  /** No such call lands below `low`. */
  ghost predicate LowComplete(g: Graph, s: State) {
    forall i, u, w :: FollowedCall(g, s, i, u, w)
      ==> s.work[i].node in s.low && w in s.index && s.low[s.work[i].node] <= s.index[w]
  }

  ghost predicate ComponentsDone(g: Graph, cs: seq<seq<Title>>) {
    && (forall k :: 0 <= k < |cs| ==> IsComponent(g, cs[k]))
    && CalleesFirst(g, cs)
    && PairwiseDisjoint(cs)
  }

  ghost predicate AllFromRoots(g: Graph, roots: seq<Title>, s: State) {
    forall n :: n in s.index ==> RootReaches(g, roots, n)
  }

  ghost predicate Inv(g: Graph, roots: seq<Title>, s: State) {
    && Indexed(s)
    && StackSorted(s)
    && Partitioned(s)
    && OpenOnStack(s)
    && RestAreCalls(g, s)
    && Followed(g, s, {})
    && Mutual(g, s)
    && LowSound(g, s)
    && LowComplete(g, s)
    && ComponentsDone(g, s.components)
    && AllFromRoots(g, roots, s)
  }

  // ----- The steps -----

  function Top(s: State): Visit
    requires |s.work| > 0
  {
    s.work[|s.work| - 1]
  }

  /** Index `n`, put it on the stack, and open it. */
  function Enter(g: Graph, s: State, n: Title): State {
    State(s.index[n := s.counter], s.low[n := s.counter], s.onStack + {n}, s.stack + [n],
          s.components, s.work + [Visit(n, Sorted(Callees(g, n)))], s.counter + 1)
  }

  /** The top iterator produced its next child. */
  function Advance(s: State): State
    requires |s.work| > 0 && Top(s).rest != []
  {
    s.(work := s.work[..|s.work| - 1] + [Visit(Top(s).node, Top(s).rest[1..])])
  }

  /** Fold `bound` into the top node's `low`. */
  function Lower(s: State, bound: nat): State
    requires |s.work| > 0 && Top(s).node in s.low
  {
    var node := Top(s).node;
    s.(low := s.low[node := if bound < s.low[node] then bound else s.low[node]])
  }

  /** The parent takes over the `low` of the finished top node. */
  function Close(s: State): State
    requires |s.work| > 0 && Top(s).node in s.low
    requires |s.work| > 1 ==> s.work[|s.work| - 2].node in s.low
  {
    var below := s.(work := s.work[..|s.work| - 1]);
    if |below.work| > 0 then Lower(below, s.low[Top(s).node]) else below
  }

  function Reversed(c: seq<Title>): (r: seq<Title>)
    ensures |r| == |c|
    ensures forall i :: 0 <= i < |c| ==> r[i] == c[|c| - 1 - i]
  {
    if c == [] then [] else [c[|c| - 1]] + Reversed(c[..|c| - 1])
  }

  /** Take the stack from position `k` on as one component. */
  function Emit(s: State, k: nat): State
    requires k <= |s.stack|
  {
    s.(stack := s.stack[..k], onStack := s.onStack - (set n | n in s.stack[k..]),
       components := s.components + [Reversed(s.stack[k..])])
  }

  // ----- Entering a node -----

  lemma EnterStack(s: State, g: Graph, n: Title)
    requires Indexed(s) && StackSorted(s) && n !in s.index
    ensures Indexed(Enter(g, s, n)) && StackSorted(Enter(g, s, n))
  {
    var t := Enter(g, s, n);
    assert forall m :: m in t.stack <==> m in s.stack || m == n;
  }

  lemma EnterPartition(s: State, g: Graph, n: Title)
    requires Indexed(s) && Partitioned(s) && n !in s.index
    ensures Partitioned(Enter(g, s, n))
  {
  }

  lemma EnterOpen(s: State, g: Graph, n: Title)
    requires Indexed(s) && OpenOnStack(s) && RestAreCalls(g, s) && n !in s.index
    ensures OpenOnStack(Enter(g, s, n)) && RestAreCalls(g, Enter(g, s, n))
  {
    var t := Enter(g, s, n);
    assert forall i :: 0 <= i < |s.work| ==> t.work[i] == s.work[i];
  }

  lemma EnterFollowed(s: State, g: Graph, n: Title)
    requires Followed(g, s, {n})
    ensures Followed(g, Enter(g, s, n), {})
  {
    var t := Enter(g, s, n);
    assert t.work[|s.work|] == Visit(n, Sorted(Callees(g, n)));
    forall m, w | m in t.index && !IsOpen(t, m) && w in Callees(g, m) ensures w in t.index {
      assert m != n && m in s.index;
      assert forall i :: 0 <= i < |s.work| ==> t.work[i] == s.work[i];
    }
  }

  /** Where a node lies between the open ones, before and after `n` is entered. */
  lemma EnterWithin(s: State, g: Graph, n: Title, i: int, u: Title)
    requires Indexed(s) && OpenOnStack(s) && n !in s.index
    ensures Above(Enter(g, s, n), i, u) && u != n ==> Above(s, i, u)
    ensures Within(Enter(g, s, n), i, u) ==> if i == |s.work| then u == n else u != n && Within(s, i, u)
  {
    var t := Enter(g, s, n);
    assert t.work[|s.work|].node == n;
    if 0 <= i < |s.work| { assert t.work[i] == s.work[i]; }
    if 0 <= i + 1 < |s.work| { assert t.work[i + 1] == s.work[i + 1]; }
  }

  lemma EnterMutual(s: State, g: Graph, n: Title)
    requires Indexed(s) && OpenOnStack(s) && Mutual(g, s) && n !in s.index
    requires |s.work| > 0 ==> n in Callees(g, Top(s).node)
    ensures Mutual(g, Enter(g, s, n))
  {
    var t := Enter(g, s, n);
    forall i, u | Above(t, i, u) ensures Reach(g, t.work[i].node, u) {
      EnterWithin(s, g, n, i, u);
      if i == |s.work| {
        ReachSelf(g, n);
      } else if u == n {
        assert Above(s, i, Top(s).node);
        ReachEdge(g, Top(s).node, n);
        ReachTrans(g, s.work[i].node, Top(s).node, n);
      }
    }
    forall i, u | Within(t, i, u) ensures Reach(g, u, t.work[i].node) {
      EnterWithin(s, g, n, i, u);
      ReachSelf(g, n);
    }
  }

  lemma EnterLowSound(s: State, g: Graph, n: Title)
    requires OpenOnStack(s) && LowSound(g, s) && n !in s.index
    ensures LowSound(g, Enter(g, s, n))
  {
    var t := Enter(g, s, n);
    forall i | 0 <= i < |t.work| ensures HasLow(g, t, i) {
      if i == |s.work| {
        ReachSelf(g, n);
        assert LowWitness(g, t, i, n);
      } else {
        assert HasLow(g, s, i);
        var w :| LowWitness(g, s, i, w);
        assert t.work[i] == s.work[i];
        assert LowWitness(g, t, i, w);
      }
    }
  }

  lemma EnterLowComplete(s: State, g: Graph, n: Title)
    requires Indexed(s) && OpenOnStack(s) && LowSound(g, s) && LowComplete(g, s) && n !in s.index
    ensures LowComplete(g, Enter(g, s, n))
  {
    var t := Enter(g, s, n);
    forall i, u, w | FollowedCall(g, t, i, u, w)
      ensures t.work[i].node in t.low && w in t.index && t.low[t.work[i].node] <= t.index[w]
    {
      EnterWithin(s, g, n, i, u);
      if i < |s.work| {
        assert HasLow(g, s, i);
        if w != n {
          assert FollowedCall(g, s, i, u, w);
        }
      }
    }
  }

  // ----- Taking the next child -----

  ghost predicate HasNext(s: State) {
    |s.work| > 0 && Top(s).rest != []
  }

  lemma AdvanceOpen(s: State, g: Graph)
    requires HasNext(s) && OpenOnStack(s) && RestAreCalls(g, s)
    ensures OpenOnStack(Advance(s)) && RestAreCalls(g, Advance(s))
    ensures Top(s).rest[0] in Callees(g, Top(s).node)
    ensures forall i :: 0 <= i < |s.work| ==> Advance(s).work[i].node == s.work[i].node
  {
    assert Top(s) == s.work[|s.work| - 1];
    assert Top(s).rest[0] in s.work[|s.work| - 1].rest;
  }

  lemma AdvanceFollowed(s: State, g: Graph)
    requires HasNext(s) && Followed(g, s, {})
    ensures Followed(g, Advance(s), {Top(s).rest[0]})
  {
    var t := Advance(s);
    var last := |s.work| - 1;
    forall m, w | m in t.index && !IsOpen(t, m) && w in Callees(g, m) ensures w in t.index {
      assert !IsOpen(s, m) by {
        assert forall i :: 0 <= i < |s.work| ==> t.work[i].node == s.work[i].node;
      }
    }
    forall i, w | 0 <= i < |t.work| && w in Callees(g, t.work[i].node) && w !in t.work[i].rest
      ensures w in t.index || w == Top(s).rest[0]
    {
      if i == last {
        assert w in s.work[last].rest ==> w == Top(s).rest[0];
      } else {
        assert t.work[i] == s.work[i];
      }
    }
  }

  lemma SameNodesWithin(s: State, t: State, i: int, u: Title)
    requires |s.work| == |t.work| && forall j :: 0 <= j < |s.work| ==> t.work[j].node == s.work[j].node
    requires s.index == t.index && s.onStack == t.onStack
    ensures Above(s, i, u) == Above(t, i, u)
    ensures Within(s, i, u) == Within(t, i, u)
  {
    if 0 <= i < |s.work| { assert t.work[i].node == s.work[i].node; }
    if 0 <= i + 1 < |s.work| { assert t.work[i + 1].node == s.work[i + 1].node; }
  }

  lemma SameNodesMutual(s: State, t: State, g: Graph)
    requires |s.work| == |t.work| && forall j :: 0 <= j < |s.work| ==> t.work[j].node == s.work[j].node
    requires s.index == t.index && s.onStack == t.onStack && Mutual(g, s)
    ensures Mutual(g, t)
  {
    forall i, u | Above(t, i, u) ensures Reach(g, t.work[i].node, u) {
      SameNodesWithin(s, t, i, u);
    }
    forall i, u | Within(t, i, u) ensures Reach(g, u, t.work[i].node) {
      SameNodesWithin(s, t, i, u);
    }
  }

  lemma AdvanceLowSound(s: State, g: Graph)
    requires HasNext(s) && LowSound(g, s)
    ensures LowSound(g, Advance(s))
  {
    var t := Advance(s);
    forall i | 0 <= i < |t.work| ensures HasLow(g, t, i) {
      assert HasLow(g, s, i);
      var w :| LowWitness(g, s, i, w);
      assert t.work[i].node == s.work[i].node;
      assert LowWitness(g, t, i, w);
    }
  }

  lemma AdvanceCall(s: State, g: Graph, i: int, u: Title, w: Title)
    requires HasNext(s) && FollowedCall(g, Advance(s), i, u, w)
    ensures FollowedCall(g, s, i, u, w) || (i == |s.work| - 1 && w == Top(s).rest[0])
  {
    var t := Advance(s);
    assert forall j :: 0 <= j < |s.work| ==> t.work[j].node == s.work[j].node;
    SameNodesWithin(s, t, i, u);
    if i == |s.work| - 1 {
      assert Top(s).rest == [Top(s).rest[0]] + t.work[i].rest;
    } else {
      assert t.work[i] == s.work[i];
    }
  }

  lemma EnterChildKeeps(g: Graph, roots: seq<Title>, s: State)
    requires Inv(g, roots, s) && HasNext(s) && Top(s).rest[0] !in s.index
    ensures Inv(g, roots, Enter(g, Advance(s), Top(s).rest[0]))
    ensures RootReaches(g, roots, Top(s).rest[0])
  {
    var t, child := Advance(s), Top(s).rest[0];
    AdvanceOpen(s, g);
    AdvanceFollowed(s, g);
    AdvanceLowSound(s, g);
    SameNodesMutual(s, t, g);
    assert LowComplete(g, t) by {
      forall i, u, w | FollowedCall(g, t, i, u, w)
        ensures t.work[i].node in t.low && w in t.index && t.low[t.work[i].node] <= t.index[w]
      {
        AdvanceCall(s, g, i, u, w);
      }
    }
    assert RootReaches(g, roots, child) by {
      assert RootReaches(g, roots, Top(s).node);
      var r :| r in roots && Reach(g, r, Top(s).node);
      ReachEdge(g, Top(s).node, child);
      ReachTrans(g, r, Top(s).node, child);
    }
    EnterKeeps(g, roots, t, child);
  }

  lemma EnterKeeps(g: Graph, roots: seq<Title>, t: State, n: Title)
    requires Indexed(t) && StackSorted(t) && Partitioned(t) && OpenOnStack(t) && RestAreCalls(g, t)
    requires Followed(g, t, {n}) && Mutual(g, t) && LowSound(g, t) && LowComplete(g, t)
    requires ComponentsDone(g, t.components) && AllFromRoots(g, roots, t)
    requires n !in t.index && RootReaches(g, roots, n)
    requires |t.work| > 0 ==> n in Callees(g, Top(t).node)
    ensures Inv(g, roots, Enter(g, t, n))
  {
    EnterStack(t, g, n);
    EnterPartition(t, g, n);
    EnterOpen(t, g, n);
    EnterFollowed(t, g, n);
    EnterMutual(t, g, n);
    EnterLowSound(t, g, n);
    EnterLowComplete(t, g, n);
  }

  /** The state after the loop has looked at a child that is already indexed. */
  function Skipped(s: State): State
    requires HasNext(s) && Top(s).rest[0] in s.index && Top(s).node in s.low
  {
    var child := Top(s).rest[0];
    if child in s.onStack then Lower(Advance(s), s.index[child]) else Advance(s)
  }

  lemma SkipLow(s: State, g: Graph)
    requires HasNext(s) && OpenOnStack(s) && RestAreCalls(g, s) && LowSound(g, s) && LowComplete(g, s)
    requires Indexed(s) && Top(s).rest[0] in s.index
    ensures LowSound(g, Skipped(s)) && LowComplete(g, Skipped(s))
  {
    var t, child, last := Skipped(s), Top(s).rest[0], |s.work| - 1;
    AdvanceOpen(s, g);
    forall i | 0 <= i < |t.work| ensures HasLow(g, t, i) {
      assert HasLow(g, s, i);
      var w :| LowWitness(g, s, i, w);
      if i == last && child in s.onStack && s.index[child] < s.low[Top(s).node] {
        ReachEdge(g, Top(s).node, child);
        assert LowWitness(g, t, i, child);
      } else {
        assert i < last ==> s.index[s.work[i].node] < s.index[s.work[last].node];
        assert LowWitness(g, t, i, w);
      }
    }
    forall i, u, w | FollowedCall(g, t, i, u, w)
      ensures t.work[i].node in t.low && w in t.index && t.low[t.work[i].node] <= t.index[w]
    {
      assert t.low[t.work[i].node] <= s.low[s.work[i].node];
      SameNodesWithin(Advance(s), t, i, u);
      assert FollowedCall(g, Advance(s), i, u, w);
      AdvanceCall(s, g, i, u, w);
    }
  }

  lemma SkipStack(g: Graph, roots: seq<Title>, s: State)
    requires Indexed(s) && HasNext(s) && Top(s).rest[0] in s.index && OpenOnStack(s) && RestAreCalls(g, s)
    requires StackSorted(s) && Partitioned(s) && AllFromRoots(g, roots, s)
    ensures Indexed(Skipped(s)) && StackSorted(Skipped(s)) && Partitioned(Skipped(s)) && OpenOnStack(Skipped(s))
    ensures RestAreCalls(g, Skipped(s)) && AllFromRoots(g, roots, Skipped(s))
    ensures Skipped(s).components == s.components
  {
    hide RootReaches, Callees;
    AdvanceOpen(s, g);
  }

  lemma SkipFollowed(g: Graph, s: State)
    requires Indexed(s) && HasNext(s) && Top(s).rest[0] in s.index && Followed(g, s, {})
    requires OpenOnStack(s) && RestAreCalls(g, s)
    ensures Followed(g, Skipped(s), {})
  {
    AdvanceOpen(s, g);
    AdvanceFollowed(s, g);
  }

  lemma SkipKeeps(g: Graph, roots: seq<Title>, s: State)
    requires Inv(g, roots, s) && HasNext(s) && Top(s).rest[0] in s.index
    ensures Inv(g, roots, Skipped(s))
  {
    hide Followed, LowSound, LowComplete, Mutual, ComponentsDone, AllFromRoots, StackSorted, Partitioned;
    SkipStack(g, roots, s);
    SkipFollowed(g, s);
    SkipLow(s, g);
    SameNodesMutual(s, Skipped(s), g);
  }

  // ----- Finishing a node that can reach further down the stack -----

  ghost predicate IsSpent(s: State) {
    |s.work| > 0 && Top(s).rest == []
  }

  /** Everything on the stack lies between some open node and the next. */
  lemma {:induction false} Lodge(s: State, n: Title, k: int) returns (i: int)
    requires OpenOnStack(s) && n in s.onStack && n in s.index
    requires 0 <= k < |s.work|
    requires k + 1 < |s.work| ==> s.index[n] < s.index[s.work[k + 1].node]
    ensures Within(s, i, n) && i <= k
    decreases k
  {
    if s.index[s.work[k].node] <= s.index[n] {
      i := k;
    } else {
      assert k > 0;
      i := Lodge(s, n, k - 1);
    }
  }

  lemma CloseWithin(s: State, t: State, i: int, u: Title)
    requires OpenOnStack(s) && |s.work| > 1 && t.work == s.work[..|s.work| - 1]
    requires t.index == s.index && t.onStack == s.onStack
    ensures Above(t, i, u) ==> Above(s, i, u)
    ensures Within(t, i, u) ==> Within(s, i, u) || (i == |s.work| - 2 && Within(s, i + 1, u))
  {
    if 0 <= i < |t.work| { assert t.work[i] == s.work[i]; }
    if 0 <= i + 1 < |t.work| { assert t.work[i + 1] == s.work[i + 1]; }
  }

  lemma CloseOpen(s: State, t: State, g: Graph)
    requires |s.work| > 1 && t.work == s.work[..|s.work| - 1] && t.index == s.index && t.onStack == s.onStack
    requires OpenOnStack(s) && RestAreCalls(g, s)
    ensures OpenOnStack(t) && RestAreCalls(g, t)
  {
    assert forall i :: 0 <= i < |t.work| ==> t.work[i] == s.work[i];
  }

  lemma CloseFollowed(s: State, t: State, g: Graph)
    requires IsSpent(s) && t.work == s.work[..|s.work| - 1] && t.index == s.index
    requires Followed(g, s, {})
    ensures Followed(g, t, {})
  {
    var last := |s.work| - 1;
    assert forall i :: 0 <= i < |t.work| ==> t.work[i] == s.work[i];
    forall m, w | m in t.index && !IsOpen(t, m) && w in Callees(g, m) ensures w in t.index {
      if m == s.work[last].node {
        assert w !in s.work[last].rest;
      } else {
        assert !IsOpen(s, m);
      }
    }
  }

  /** The finished node reaches its parent, by way of the node its `low` names. */
  lemma SpentReachesParent(s: State, g: Graph)
    requires |s.work| > 1 && OpenOnStack(s) && Mutual(g, s) && LowSound(g, s)
    requires Top(s).node in s.low && Top(s).node in s.index && s.low[Top(s).node] < s.index[Top(s).node]
    ensures Reach(g, Top(s).node, s.work[|s.work| - 2].node)
  {
    var last := |s.work| - 1;
    assert HasLow(g, s, last);
    var w :| LowWitness(g, s, last, w);
    var j := Lodge(s, w, last - 1);
    assert Above(s, j, s.work[last - 1].node);
    ReachTrans(g, w, s.work[j].node, s.work[last - 1].node);
    ReachTrans(g, Top(s).node, w, s.work[last - 1].node);
  }

  lemma CloseMutual(s: State, t: State, g: Graph)
    requires |s.work| > 1 && t.work == s.work[..|s.work| - 1] && t.index == s.index && t.onStack == s.onStack
    requires OpenOnStack(s) && Mutual(g, s) && Reach(g, Top(s).node, s.work[|s.work| - 2].node)
    ensures Mutual(g, t)
  {
    forall i, u | Above(t, i, u) ensures Reach(g, t.work[i].node, u) {
      CloseWithin(s, t, i, u);
    }
    forall i, u | Within(t, i, u) ensures Reach(g, u, t.work[i].node) {
      CloseWithin(s, t, i, u);
      if !Within(s, i, u) {
        ReachTrans(g, u, Top(s).node, s.work[i].node);
      }
    }
  }

  lemma CloseLow(s: State, g: Graph)
    requires IsSpent(s) && |s.work| > 1 && Indexed(s) && OpenOnStack(s) && Mutual(g, s)
    requires LowSound(g, s) && LowComplete(g, s)
    ensures LowSound(g, Close(s)) && LowComplete(g, Close(s))
  {
    var t, last := Close(s), |s.work| - 1;
    var node, parent := Top(s).node, s.work[last - 1].node;
    assert forall i :: 0 <= i < last - 1 ==> s.index[s.work[i].node] < s.index[parent];
    assert Above(s, last - 1, node);
    forall i | 0 <= i < |t.work| ensures HasLow(g, t, i) {
      assert HasLow(g, s, i) && HasLow(g, s, last);
      var w :| LowWitness(g, s, i, w);
      if i == last - 1 && s.low[node] < s.low[parent] {
        var v :| LowWitness(g, s, last, v);
        ReachTrans(g, parent, node, v);
        assert LowWitness(g, t, i, v);
      } else {
        assert t.work[i] == s.work[i];
        assert LowWitness(g, t, i, w);
      }
    }
    forall i, u, w | FollowedCall(g, t, i, u, w)
      ensures t.work[i].node in t.low && w in t.index && t.low[t.work[i].node] <= t.index[w]
    {
      assert t.work[i] == s.work[i];
      CloseWithin(s, t, i, u);
      if Within(s, i, u) {
        assert FollowedCall(g, s, i, u, w);
      } else {
        assert FollowedCall(g, s, last, u, w);
      }
    }
  }

  /** A spent node whose `low` is below it hands everything over to its parent. */
  lemma SpentHasParent(g: Graph, roots: seq<Title>, s: State)
    requires Inv(g, roots, s) && IsSpent(s) && s.low[Top(s).node] != s.index[Top(s).node]
    ensures |s.work| > 1 && Top(s).node in s.low && Top(s).node in s.index && s.low[Top(s).node] < s.index[Top(s).node]
  {
    hide Mutual, Followed, LowComplete, Partitioned, RestAreCalls, AllFromRoots, ComponentsDone;
    var last := |s.work| - 1;
    assert HasLow(g, s, last);
    var w :| LowWitness(g, s, last, w);
  }

  lemma CloseStack(g: Graph, roots: seq<Title>, s: State)
    requires Indexed(s) && IsSpent(s) && |s.work| > 1 && OpenOnStack(s) && RestAreCalls(g, s)
    requires StackSorted(s) && Partitioned(s) && AllFromRoots(g, roots, s)
    ensures Indexed(Close(s)) && StackSorted(Close(s)) && Partitioned(Close(s)) && AllFromRoots(g, roots, Close(s))
    ensures Close(s).components == s.components
  {
    hide RootReaches, Callees;
    assert s.index[s.work[|s.work| - 2].node] < s.index[s.work[|s.work| - 1].node];
  }

  lemma CloseKeeps(g: Graph, roots: seq<Title>, s: State)
    requires Inv(g, roots, s) && IsSpent(s) && s.low[Top(s).node] != s.index[Top(s).node]
    ensures |s.work| > 1 && Inv(g, roots, Close(s))
  {
    hide Mutual, Followed, LowSound, LowComplete, ComponentsDone, AllFromRoots, Partitioned, StackSorted;
    SpentHasParent(g, roots, s);
    CloseStack(g, roots, s);
    SpentReachesParent(s, g);
    CloseMutual(s, Close(s), g);
    CloseOpen(s, Close(s), g);
    CloseFollowed(s, Close(s), g);
    CloseLow(s, g);
  }

  // ----- Emitting a component -----

  /** The top node is spent, at stack position `k`, and nothing it reaches on the stack is below. */
  ghost predicate EmitsAt(s: State, k: int) {
    && IsSpent(s) && 0 <= k < |s.stack| && s.stack[k] == Top(s).node
    && Top(s).node in s.low && Top(s).node in s.index && s.low[Top(s).node] == s.index[Top(s).node]
  }

  lemma SplitAt(s: seq<Title>, k: int, n: Title)
    requires 0 <= k <= |s| && Distinct(s)
    ensures n in s[k..] <==> exists j :: k <= j < |s| && s[j] == n
    ensures n in s[..k] <==> n in s && n !in s[k..]
    ensures n in Reversed(s[k..]) <==> n in s[k..]
  {
    var c := s[k..];
    if n in c {
      var i :| 0 <= i < |c| && c[i] == n;
      assert s[k + i] == n;
      assert Reversed(c)[|c| - 1 - i] == n;
    }
    assert s == s[..k] + c;
    assert forall j :: k <= j < |s| ==> c[j - k] == s[j];
  }

  /** What is taken off the stack is what lies above the top node. */
  lemma TakenIsAbove(s: State, k: int, n: Title)
    requires EmitsAt(s, k) && StackSorted(s)
    ensures n in s.stack[k..] <==> Within(s, |s.work| - 1, n)
    ensures n in Reversed(s.stack[k..]) <==> n in s.stack[k..]
    ensures n in s.stack[..k] <==> n in s.stack && n !in s.stack[k..]
  {
    assert forall i, j :: 0 <= i < j < |s.stack| ==> s.index[s.stack[i]] < s.index[s.stack[j]];
    assert Distinct(s.stack);
    SplitAt(s.stack, k, n);
    if n in s.stack {
      var j :| 0 <= j < |s.stack| && s.stack[j] == n;
      if j < k {
        assert s.index[s.stack[j]] < s.index[s.stack[k]];
      } else if k < j {
        assert s.index[s.stack[k]] < s.index[s.stack[j]];
      }
    }
  }

  lemma EmitStack(s: State, k: int)
    requires EmitsAt(s, k) && Indexed(s) && StackSorted(s) && OpenOnStack(s)
    ensures Indexed(Emit(s, k)) && StackSorted(Emit(s, k))
    ensures forall n :: n in Emit(s, k).onStack <==> n in s.onStack && !Within(s, |s.work| - 1, n)
  {
    forall n ensures n in s.stack[k..] <==> Within(s, |s.work| - 1, n)
             ensures n in s.stack[..k] <==> n in s.stack && n !in s.stack[k..] {
      TakenIsAbove(s, k, n);
    }
  }

  lemma EmitPartition(s: State, k: int)
    requires EmitsAt(s, k) && StackSorted(s) && OpenOnStack(s) && Partitioned(s)
    ensures Partitioned(Emit(s, k))
    ensures forall n :: Emitted(Emit(s, k).components, n) <==> Emitted(s.components, n) || Within(s, |s.work| - 1, n)
  {
    var t, c := Emit(s, k), Reversed(s.stack[k..]);
    forall n ensures n in c <==> Within(s, |s.work| - 1, n)
             ensures n in c <==> n in s.stack[k..] {
      TakenIsAbove(s, k, n);
    }
    forall n ensures Emitted(t.components, n) <==> Emitted(s.components, n) || n in c {
      if Emitted(s.components, n) {
        var i :| 0 <= i < |s.components| && n in s.components[i];
        assert t.components[i] == s.components[i];
      }
      assert t.components[|s.components|] == c;
    }
  }

  lemma EmitWork(s: State, t: State, g: Graph)
    requires IsSpent(s) && t.work == s.work[..|s.work| - 1] && t.index == s.index && t.low == s.low
    requires forall n :: n in t.onStack <==> n in s.onStack && !Within(s, |s.work| - 1, n)
    requires OpenOnStack(s) && RestAreCalls(g, s) && LowSound(g, s) && LowComplete(g, s) && Mutual(g, s)
    ensures OpenOnStack(t) && RestAreCalls(g, t) && LowSound(g, t) && LowComplete(g, t) && Mutual(g, t)
  {
    var last := |s.work| - 1;
    assert forall i :: 0 <= i < last ==> t.work[i] == s.work[i];
    forall i, u | Above(t, i, u) ensures Above(s, i, u) {}
    forall i, u | Within(t, i, u) ensures Within(s, i, u) {
      assert !Within(s, last, u);
      if i == last - 1 { assert s.index[u] < s.index[s.work[last].node]; }
    }
    forall i | 0 <= i < |t.work| ensures HasLow(g, t, i) {
      assert HasLow(g, s, i);
      var w :| LowWitness(g, s, i, w);
      assert s.index[s.work[i].node] < s.index[s.work[last].node];
      assert LowWitness(g, t, i, w);
    }
    forall i, u, w | FollowedCall(g, t, i, u, w)
      ensures t.work[i].node in t.low && w in t.index && t.low[t.work[i].node] <= t.index[w]
    {
      assert FollowedCall(g, s, i, u, w);
    }
  }

  /** A call from the taken nodes leads to a taken or to an already emitted node. */
  lemma TakenCallsStay(s: State, g: Graph, u: Title, w: Title)
    requires IsSpent(s) && Partitioned(s) && OpenOnStack(s) && Followed(g, s, {}) && LowComplete(g, s)
    requires Top(s).node in s.low && Top(s).node in s.index && s.low[Top(s).node] == s.index[Top(s).node]
    requires Within(s, |s.work| - 1, u) && w in Callees(g, u)
    ensures Within(s, |s.work| - 1, w) || Emitted(s.components, w)
  {
    var last := |s.work| - 1;
    assert w in s.index by {
      if u == s.work[last].node {
        assert w !in s.work[last].rest;
      } else {
        assert !IsOpen(s, u);
      }
    }
    if w in s.onStack {
      assert FollowedCall(g, s, last, u, w);
    }
  }

  /** The taken nodes are exactly one strongly connected component. */
  lemma TakenIsComponent(s: State, g: Graph, u: Title, w: Title)
    requires IsSpent(s) && Indexed(s) && Partitioned(s) && OpenOnStack(s) && Followed(g, s, {}) && LowComplete(g, s)
    requires Mutual(g, s) && CalleesFirst(g, s.components)
    requires Top(s).node in s.low && Top(s).node in s.index && s.low[Top(s).node] == s.index[Top(s).node]
    requires Within(s, |s.work| - 1, u)
    ensures Within(s, |s.work| - 1, w) <==> Reach(g, u, w) && Reach(g, w, u)
  {
    var last := |s.work| - 1;
    if Within(s, last, w) {
      ReachTrans(g, u, Top(s).node, w);
      ReachTrans(g, w, Top(s).node, u);
    }
    if Reach(g, u, w) && Reach(g, w, u) {
      var done := set n | n in s.index && Emitted(s.components, n);
      var both := done + set n | n in s.index && Within(s, last, n);
      forall a, b | a in done && b in Callees(g, a) ensures b in done {
        var i :| 0 <= i < |s.components| && a in s.components[i];
        assert EmittedBy(s.components, i, b);
        assert Emitted(s.components, b);
      }
      forall a, b | a in both && b in Callees(g, a) ensures b in both {
        if a !in done {
          TakenCallsStay(s, g, a, b);
        }
      }
      ReachStaysIn(g, both, u, w);
      if w in done {
        ReachStaysIn(g, done, w, u);
      }
    }
  }

  lemma EmitComponents(s: State, g: Graph, k: int)
    requires EmitsAt(s, k) && Indexed(s) && StackSorted(s) && Partitioned(s) && OpenOnStack(s)
    requires Followed(g, s, {}) && LowComplete(g, s) && Mutual(g, s) && ComponentsDone(g, s.components)
    ensures ComponentsDone(g, Emit(s, k).components)
  {
    var cs, last := s.components, |s.work| - 1;
    var c := Reversed(s.stack[k..]);
    var ds := cs + [c];
    forall n ensures n in c <==> Within(s, last, n) { TakenIsAbove(s, k, n); }
    assert IsComponent(g, c) by {
      assert forall i, j :: 0 <= i < j < |c| ==> s.index[c[j]] < s.index[c[i]];
      forall u, w | u in c ensures w in c <==> Reach(g, u, w) && Reach(g, w, u) {
        TakenIsComponent(s, g, u, w);
      }
    }
    forall j, u, w | 0 <= j < |ds| && u in ds[j] && w in Callees(g, u) ensures EmittedBy(ds, j, w) {
      if j < |cs| {
        assert EmittedBy(cs, j, w);
        var i :| 0 <= i <= j && i < |cs| && w in cs[i];
        assert ds[i] == cs[i];
      } else {
        TakenCallsStay(s, g, u, w);
        if Emitted(cs, w) {
          var i :| 0 <= i < |cs| && w in cs[i];
          assert ds[i] == cs[i];
        }
      }
    }
    forall i, j, n | 0 <= i < j < |ds| && n in ds[i] ensures n !in ds[j] {
      if j == |cs| { assert Emitted(cs, n); }
    }
  }

  lemma EmitKeeps(g: Graph, roots: seq<Title>, s: State, k: int)
    requires Inv(g, roots, s) && EmitsAt(s, k)
    ensures |s.work| > 1 ==> Close(s).low == s.low
    ensures Inv(g, roots, Emit(Close(s), k))
  {
    if |s.work| > 1 {
      assert HasLow(g, s, |s.work| - 2);
      assert Close(s).low == s.low;
    }
    var t := Emit(Close(s), k);
    assert Close(s) == s.(work := s.work[..|s.work| - 1]);
    EmitStack(s, k);
    EmitPartition(s, k);
    EmitWork(s, t, g);
    CloseFollowed(s, t, g);
    EmitComponents(s, g, k);
  }

  // ----- The algorithm -----

  /** Every title the walk could meet. */
  ghost function Universe(g: Graph, roots: seq<Title>): set<Title> {
    (set r | r in roots) + (set n, m | n in g.calls && m in g.calls[n] :: m)
  }

  lemma ReachedInUniverse(g: Graph, roots: seq<Title>, n: Title)
    requires RootReaches(g, roots, n)
    ensures n in Universe(g, roots)
  {
    var r :| r in roots && Reach(g, r, n);
    ReachStaysIn(g, Universe(g, roots), r, n);
  }

  lemma UnvisitedShrinks(universe: set<Title>, before: set<Title>, after: set<Title>, n: Title)
    requires n in universe && n !in before && n in after && before <= after
    ensures |universe - after| < |universe - before|
  {
    var a, b := universe - after, universe - before;
    assert a <= b - {n};
    CardinalityMonotone(a, b - {n});
  }

  lemma {:induction false} CardinalityMonotone(a: set<Title>, b: set<Title>)
    requires a <= b
    ensures |a| <= |b|
  {
    if a != {} {
      var x :| x in a;
      CardinalityMonotone(a - {x}, b - {x});
    }
  }

  lemma TopOnStack(s: State) returns (k: int)
    requires StackSorted(s) && OpenOnStack(s) && |s.work| > 0
    ensures 0 <= k < |s.stack| && s.stack[k] == Top(s).node
  {
    assert Top(s).node in s.stack;
    k :| 0 <= k < |s.stack| && s.stack[k] == Top(s).node;
  }

  /** The components the roots reach, each once, callees first. */
  ghost predicate IsCondensation(g: Graph, roots: seq<Title>, cs: seq<seq<Title>>) {
    && (forall k :: 0 <= k < |cs| ==> IsComponent(g, cs[k]))
    && PairwiseDisjoint(cs)
    && CalleesFirst(g, cs)
    && (forall n :: Emitted(cs, n) <==> RootReaches(g, roots, n))
  }

  lemma FinishedIsClosed(g: Graph, s: State)
    requires s.work == [] && Followed(g, s, {})
    ensures ClosedUnderCalls(g, s.index.Keys)
  {
    forall u, w | u in s.index.Keys && w in Callees(g, u) ensures w in s.index.Keys {
      assert !IsOpen(s, u);
    }
  }

  lemma RootsReachIndexed(g: Graph, roots: seq<Title>, s: State, n: Title)
    requires ClosedUnderCalls(g, s.index.Keys) && RootReaches(g, roots, n)
    requires forall r :: r in roots ==> r in s.index
    ensures n in s.index
  {
    var r :| r in roots && Reach(g, r, n);
    ReachStaysIn(g, s.index.Keys, r, n);
  }

  /** Pop the stack down to `node`, which is `stack.pop()` until the node comes out. */
  method PopComponent(s: State, node: Title, ghost k: nat) returns (t: State)
    requires k < |s.stack| && s.stack[k] == node && Distinct(s.stack)
    ensures t == Emit(s, k)
  {
    var stack, onStack := s.stack, s.onStack;
    var component: seq<Title> := [];
    while component == [] || component[|component| - 1] != node
      invariant |component| <= |s.stack| - k
      invariant stack == s.stack[..|s.stack| - |component|]
      invariant forall i :: 0 <= i < |component| ==> component[i] == s.stack[|s.stack| - 1 - i]
      invariant onStack == s.onStack - (set n | n in component)
      decreases |stack|
    {
      var member := stack[|stack| - 1];
      stack := stack[..|stack| - 1];
      onStack := onStack - {member};
      component := component + [member];
    }
    assert |component| == |s.stack| - k;
    assert component == Reversed(s.stack[k..]);
    forall n ensures n in component <==> n in s.stack[k..] { SplitAt(s.stack, k, n); }
    t := s.(stack := stack, onStack := onStack, components := s.components + [component]);
  }

  lemma TopHasLow(g: Graph, roots: seq<Title>, s: State)
    requires Inv(g, roots, s) && s.work != []
    ensures Top(s).node in s.low
  {
  }

  /** The inner loop: follow the top node's calls until one leads somewhere new. */
  method FollowCalls(g: Graph, roots: seq<Title>, start: State) returns (s: State, advanced: bool)
    requires Inv(g, roots, start) && start.work != []
    ensures Inv(g, roots, s) && s.work != []
    ensures start.index.Keys <= s.index.Keys
    ensures advanced ==> |Universe(g, roots) - s.index.Keys| < |Universe(g, roots) - start.index.Keys|
    ensures !advanced ==> s.index == start.index && |s.work| == |start.work| && IsSpent(s)
  {
    hide Inv;
    s, advanced := start, false;
    while !advanced && Top(s).rest != []
      invariant Inv(g, roots, s) && s.work != []
      invariant start.index.Keys <= s.index.Keys
      invariant !advanced ==> s.index == start.index && |s.work| == |start.work|
      invariant advanced ==> |Universe(g, roots) - s.index.Keys| < |Universe(g, roots) - start.index.Keys|
      decreases !advanced, |Top(s).rest|
    {
      var child := Top(s).rest[0];
      if child !in s.index {
        EnterChildKeeps(g, roots, s);
        s := Enter(g, Advance(s), child);
        assert child in s.index;
        ReachedInUniverse(g, roots, child);
        UnvisitedShrinks(Universe(g, roots), start.index.Keys, s.index.Keys, child);
        advanced := true;
      } else {
        SkipKeeps(g, roots, s);
        TopHasLow(g, roots, s);
        s := Skipped(s);
      }
    }
  }

  /** A spent top node leaves the work list, and a component's least node takes it off the stack. */
  method Leave(g: Graph, roots: seq<Title>, s: State) returns (t: State)
    requires Inv(g, roots, s) && IsSpent(s)
    ensures Inv(g, roots, t) && t.index == s.index && |t.work| < |s.work|
  {
    var node := Top(s).node;
    var closed := Close(s);
    if closed.low[node] == closed.index[node] {
      ghost var k := TopOnStack(s);
      ClosedLow(g, roots, s);
      EmitKeeps(g, roots, s, k);
      t := PopComponent(closed, node, k);
    } else {
      ClosedLow(g, roots, s);
      CloseKeeps(g, roots, s);
      t := closed;
    }
  }

  lemma ClosedLow(g: Graph, roots: seq<Title>, s: State)
    requires Inv(g, roots, s) && IsSpent(s)
    ensures Top(s).node in s.low && Top(s).node in s.index && Close(s).low[Top(s).node] == s.low[Top(s).node]
    ensures Distinct(s.stack)
  {
    assert |s.work| > 1 ==> s.index[s.work[|s.work| - 2].node] < s.index[s.work[|s.work| - 1].node];
  }

  lemma StartKeeps(g: Graph, roots: seq<Title>, s: State, root: Title)
    requires Inv(g, roots, s) && s.work == [] && root in roots && root !in s.index
    ensures Inv(g, roots, Enter(g, s, root))
    ensures root in Enter(g, s, root).index && s.index.Keys <= Enter(g, s, root).index.Keys
  {
    ReachSelf(g, root);
    EnterKeeps(g, roots, s, root);
  }

  lemma NothingYet(g: Graph, roots: seq<Title>)
    ensures Inv(g, roots, State(map[], map[], {}, [], [], [], 0))
  {
  }

  lemma ComponentsOf(g: Graph, roots: seq<Title>, s: State)
    requires Inv(g, roots, s) && s.work == [] && forall r :: r in roots ==> r in s.index
    ensures IsCondensation(g, roots, s.components)
  {
    FinishedIsClosed(g, s);
    forall n ensures Emitted(s.components, n) <==> RootReaches(g, roots, n) {
      assert Emitted(s.components, n) <==> n in s.index;
      if RootReaches(g, roots, n) {
        RootsReachIndexed(g, roots, s, n);
      }
    }
  }

  ghost predicate Visited(roots: seq<Title>, r: nat, seen: set<Title>) {
    forall i :: 0 <= i < r && i < |roots| ==> roots[i] in seen
  }

  lemma StillVisited(roots: seq<Title>, r: nat, was: set<Title>, seen: set<Title>)
    requires Visited(roots, r, was) && was <= seen
    ensures Visited(roots, r, seen)
    ensures r < |roots| && roots[r] in seen ==> Visited(roots, r + 1, seen)
  {
  }

  lemma NoneVisited(roots: seq<Title>, seen: set<Title>)
    ensures Visited(roots, 0, seen)
  {
  }

  lemma AllVisited(roots: seq<Title>, seen: set<Title>)
    requires Visited(roots, |roots|, seen)
    ensures forall i :: 0 <= i < |roots| ==> roots[i] in seen
  {
  }

  method StronglyConnected(g: Graph, roots: seq<Title>) returns (components: seq<seq<Title>>)
    ensures IsCondensation(g, roots, components)
  {
    hide Inv, IsCondensation, Visited, Enter, Universe, IsSpent;
    var s := State(map[], map[], {}, [], [], [], 0);
    NothingYet(g, roots);
    NoneVisited(roots, s.index.Keys);
    for r := 0 to |roots|
      invariant Inv(g, roots, s) && s.work == [] && Visited(roots, r, s.index.Keys)
    {
      var root := roots[r];
      ghost var was := s.index.Keys;
      if root !in s.index {
        StartKeeps(g, roots, s, root);
        s := Enter(g, s, root);
        StillVisited(roots, r, was, s.index.Keys);
        while s.work != []
          invariant Inv(g, roots, s) && Visited(roots, r + 1, s.index.Keys)
          decreases |Universe(g, roots) - s.index.Keys|, |s.work|
        {
          ghost var before := s.index.Keys;
          var advanced;
          s, advanced := FollowCalls(g, roots, s);
          StillVisited(roots, r + 1, before, s.index.Keys);
          if !advanced {
            s := Leave(g, roots, s);
          }
        }
      } else {
        StillVisited(roots, r, was, was);
      }
    }
    assert forall i :: 0 <= i < |roots| ==> roots[i] in s.index by { AllVisited(roots, s.index.Keys); }
    ComponentsOf(g, roots, s);
    components := s.components;
  }
}
