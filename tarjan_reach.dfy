/**
 * Why the components tarjanSCC pops are strongly connected
 * (src/algorithms/tarjanSCC_labeledEdge.cpp): reachability facts the DFS of
 * module Tarjan keeps alongside its own invariant. Every vertex on the
 * Tarjan stack reaches a stack vertex whose discovery number is its
 * lowLink; every path vertex reaches every stack vertex discovered after
 * it; a stack vertex that has left the path has a lowLink below its own
 * discovery number. At a root these give that every popped vertex reaches
 * the root and the root reaches every popped vertex.
 */
module TarjanReach {
  import opened Tarjan
  import opened Paths

  /** `x` reaches `y` along the graph's edges. */
  ghost predicate Reach(succ: seq<seq<nat>>, x: nat, y: nat)
  {
    Reaches(Step(succ), x, y)
  }

  /** `y` is a stack vertex whose discovery number is `x`'s lowLink, and `x` reaches it. */
  ghost predicate LowWitness(succ: seq<seq<nat>>, T: seq<nat>, discovery: seq<nat>, lowLink: seq<nat>, x: nat, y: nat)
  {
    y in T && y < |discovery| && x < |lowLink| && discovery[y] == lowLink[x] && Reach(succ, x, y)
  }

  /**
   * `x` is on the Tarjan stack `T`. Kept apart from `x in T` so that the
   * witnesses LowReached produces do not call for witnesses of their own.
   */
  ghost predicate Stacked(T: seq<nat>, x: nat)
  {
    x in T
  }

  /** Every stack vertex has a lowLink witness. */
  ghost predicate LowReached(succ: seq<seq<nat>>, T: seq<nat>, discovery: seq<nat>, lowLink: seq<nat>)
  {
    forall x :: Stacked(T, x) ==> exists y :: LowWitness(succ, T, discovery, lowLink, x, y)
  }

  /** Every path vertex reaches every stack vertex discovered no earlier. */
  ghost predicate PathReaches(succ: seq<seq<nat>>, T: seq<nat>, discovery: seq<nat>, path: seq<nat>)
  {
    forall i, x ::
      (0 <= i < |path| && x in T && path[i] < |discovery| && x < |discovery| &&
       discovery[path[i]] <= discovery[x]) ==> Reach(succ, path[i], x)
  }

  /** A stack vertex off the path has a lowLink below its discovery number. */
  ghost predicate Settled(T: seq<nat>, discovery: seq<nat>, lowLink: seq<nat>, path: seq<nat>)
  {
    forall x :: x in T && x !in path && x < |lowLink| && x < |discovery| ==> lowLink[x] < discovery[x]
  }

  /** The members of a component reach each other. */
  ghost predicate Strong(succ: seq<seq<nat>>, components: seq<seq<nat>>)
  {
    forall c, x, y :: 0 <= c < |components| && x in components[c] && y in components[c] ==> Reach(succ, x, y)
  }

  /** No component is empty. */
  ghost predicate NonEmpty(components: seq<seq<nat>>)
  {
    forall c :: 0 <= c < |components| ==> |components[c]| > 0
  }

  /** The reachability invariant of the DFS, with vertex stack `path`. */
  ghost predicate ReachOk(succ: seq<seq<nat>>, s: State, path: seq<nat>)
  {
    LowReached(succ, s.tarjanStack, s.discovery, s.lowLink) && PathReaches(succ, s.tarjanStack, s.discovery, path) &&
    Settled(s.tarjanStack, s.discovery, s.lowLink, path) && Strong(succ, s.components) && NonEmpty(s.components)
  }

  /**
   * A Tarjan stack of discovered vertices in strictly increasing discovery
   * order, each with a lowLink no above its discovery number.
   */
  ghost predicate StackShape(T: seq<nat>, discovery: seq<nat>, lowLink: seq<nat>)
  {
    (forall i :: 0 <= i < |T| ==>
       T[i] < |discovery| && T[i] < |lowLink| && discovery[T[i]] != 0 && lowLink[T[i]] <= discovery[T[i]]) &&
    (forall i, j :: 0 <= i < j < |T| ==> discovery[T[i]] < discovery[T[j]])
  }

  /** A path of stack vertices in strictly increasing discovery order. */
  ghost predicate PathShape(T: seq<nat>, discovery: seq<nat>, path: seq<nat>)
  {
    (forall i :: 0 <= i < |path| ==> path[i] in T) &&
    (forall i, j :: 0 <= i < j < |path| ==>
       path[i] < |discovery| && path[j] < |discovery| && discovery[path[i]] < discovery[path[j]])
  }

  /**
   * The facts about the DFS state the reachability argument uses: discovery
   * numbers below `currentIndex`, and the shapes of the stack and the path.
   */
  ghost predicate Layout(succ: seq<seq<nat>>, s: State, path: seq<nat>)
  {
    |s.discovery| == |succ| && |s.lowLink| == |succ| &&
    (forall v :: 0 <= v < |succ| ==> s.discovery[v] < s.currentIndex) &&
    (forall i :: 0 <= i < |s.tarjanStack| ==> s.tarjanStack[i] < |succ|) &&
    StackShape(s.tarjanStack, s.discovery, s.lowLink) && PathShape(s.tarjanStack, s.discovery, path)
  }

  /** The DFS invariant provides the layout. */
  lemma DfsLayout(succ: seq<seq<nat>>, s: State, path: seq<nat>, its: seq<nat>)
    requires Dfs(succ, s, path, its)
    ensures Layout(succ, s, path)
  {
    var T := s.tarjanStack;
    forall i | 0 <= i < |T|
      ensures s.lowLink[T[i]] <= s.discovery[T[i]]
    {
      assert s.onStack[T[i]];
    }
    forall i | 0 <= i < |path|
      ensures path[i] in T
    {
      assert s.onStack[path[i]];
    }
  }

  /** An edge is a one-step reach. */
  lemma EdgeReach(succ: seq<seq<nat>>, v: nat, w: nat)
    requires v < |succ| && w in succ[v]
    ensures Reach(succ, v, w)
  {
    ReachesSelf(Step(succ), v);
    ReachesExtend(Step(succ), v, v, w);
  }

  /** Pushing a fresh vertex, its own witness, keeps every lowLink witnessed. */
  lemma LowReachedDiscover(succ: seq<seq<nat>>, T: seq<nat>, discovery: seq<nat>, lowLink: seq<nat>, w: nat, c: nat)
    requires LowReached(succ, T, discovery, lowLink) && w !in T && w < |discovery| && w < |lowLink|
    ensures LowReached(succ, T + [w], discovery[w := c], lowLink[w := c])
  {
    var T', d', l' := T + [w], discovery[w := c], lowLink[w := c];
    forall x | x in T'
      ensures exists y :: LowWitness(succ, T', d', l', x, y)
    {
      if x == w {
        ReachesSelf(Step(succ), w);
        assert LowWitness(succ, T', d', l', w, w);
      } else {
        assert Stacked(T, x);
        var y: nat :| LowWitness(succ, T, discovery, lowLink, x, y);
        assert LowWitness(succ, T', d', l', x, y);
      }
    }
  }

  /** Pushing a successor of the path's top onto the path keeps the path reaching. */
  lemma PathReachesDiscover(succ: seq<seq<nat>>, T: seq<nat>, discovery: seq<nat>, path: seq<nat>, w: nat, c: nat)
    requires PathReaches(succ, T, discovery, path) && PathShape(T, discovery, path) && |path| > 0
    requires path[|path| - 1] < |succ| && w in succ[path[|path| - 1]]
    requires w !in T && w < |discovery| && forall x :: x in T ==> x < |discovery| && discovery[x] < c
    ensures PathReaches(succ, T + [w], discovery[w := c], path + [w])
  {
    var T', d', path', v := T + [w], discovery[w := c], path + [w], path[|path| - 1];
    forall i, x | 0 <= i < |path'| && x in T' && path'[i] < |d'| && x < |d'| && d'[path'[i]] <= d'[x]
      ensures Reach(succ, path'[i], x)
    {
      if i == |path| {
        ReachesSelf(Step(succ), w);
      } else {
        assert path'[i] == path[i] && path[i] in T && v in T;
        if x == w {
          if i < |path| - 1 {
            assert discovery[path[i]] < discovery[v];
          }
          assert Reach(succ, path[i], v);
          EdgeReach(succ, v, w);
          ReachesTrans(Step(succ), path[i], v, w);
        } else {
          assert x in T;
        }
      }
    }
  }

  /** Pushing a fresh vertex onto the path settles nothing new. */
  lemma SettledDiscover(T: seq<nat>, discovery: seq<nat>, lowLink: seq<nat>, path: seq<nat>, w: nat, c: nat)
    requires Settled(T, discovery, lowLink, path) && w < |discovery| && w < |lowLink|
    ensures Settled(T + [w], discovery[w := c], lowLink[w := c], path + [w])
  {
    forall x | x in T + [w] && x !in path + [w] && x < |lowLink| && x < |discovery|
      ensures lowLink[w := c][x] < discovery[w := c][x]
    {
      assert x in T && x !in path;
    }
  }

  /** Lowering one lowLink to a value it has a witness for keeps every lowLink witnessed. */
  lemma LowReachedLower(succ: seq<seq<nat>>, T: seq<nat>, discovery: seq<nat>, lowLink: seq<nat>, v: nat, d: nat)
    requires LowReached(succ, T, discovery, lowLink) && v < |lowLink|
    requires d < lowLink[v] ==> exists y :: y in T && y < |discovery| && discovery[y] == d && Reach(succ, v, y)
    ensures LowReached(succ, T, discovery, lowLink[v := Min(lowLink[v], d)])
  {
    var l' := lowLink[v := Min(lowLink[v], d)];
    forall x | x in T
      ensures exists y :: LowWitness(succ, T, discovery, l', x, y)
    {
      if x == v && d < lowLink[v] {
        var y: nat :| y in T && y < |discovery| && discovery[y] == d && Reach(succ, v, y);
        assert LowWitness(succ, T, discovery, l', x, y);
      } else {
        assert Stacked(T, x);
        var y: nat :| LowWitness(succ, T, discovery, lowLink, x, y);
        assert LowWitness(succ, T, discovery, l', x, y);
      }
    }
  }

  /** Lowering a lowLink keeps every settled vertex settled. */
  lemma SettledLower(T: seq<nat>, discovery: seq<nat>, lowLink: seq<nat>, path: seq<nat>, v: nat, d: nat)
    requires Settled(T, discovery, lowLink, path) && v < |lowLink|
    ensures Settled(T, discovery, lowLink[v := Min(lowLink[v], d)], path)
  {
  }

  /** Dropping vertices from the stack and the path's tail keeps the path reaching. */
  lemma PathReachesShrink(succ: seq<seq<nat>>, T: seq<nat>, discovery: seq<nat>, path: seq<nat>, T': seq<nat>, n: nat)
    requires PathReaches(succ, T, discovery, path) && n <= |path| && forall x :: x in T' ==> x in T
    ensures PathReaches(succ, T', discovery, path[..n])
  {
    forall i, x | 0 <= i < n && x in T' && path[..n][i] < |discovery| && x < |discovery| &&
        discovery[path[..n][i]] <= discovery[x]
      ensures Reach(succ, path[..n][i], x)
    {
      assert path[..n][i] == path[i];
    }
  }

  /** Returning from v, whose lowLink is below its discovery number, to its parent p settles v. */
  lemma SettledReturn(T: seq<nat>, discovery: seq<nat>, lowLink: seq<nat>, path: seq<nat>)
    requires Settled(T, discovery, lowLink, path) && |path| > 1
    requires path[|path| - 2] != path[|path| - 1] && path[|path| - 2] < |lowLink|
    requires path[|path| - 1] < |lowLink| && path[|path| - 1] < |discovery|
    requires lowLink[path[|path| - 1]] < discovery[path[|path| - 1]]
    ensures Settled(T, discovery, lowLink[path[|path| - 2] := Min(lowLink[path[|path| - 2]], lowLink[path[|path| - 1]])],
                    path[..|path| - 1])
  {
    var p, v, path' := path[|path| - 2], path[|path| - 1], path[..|path| - 1];
    var l' := lowLink[p := Min(lowLink[p], lowLink[v])];
    forall x | x in T && x !in path' && x < |l'| && x < |discovery|
      ensures l'[x] < discovery[x]
    {
      assert path'[|path'| - 1] == p;
      if x != v {
        assert path == path' + [v];
        assert x !in path;
      }
    }
  }

  /** Cutting the stack at pos keeps every lowLink witnessed: a witness lies no higher than its vertex. */
  lemma LowReachedTruncate(succ: seq<seq<nat>>, T: seq<nat>, discovery: seq<nat>, lowLink: seq<nat>, pos: nat)
    requires LowReached(succ, T, discovery, lowLink) && StackShape(T, discovery, lowLink) && pos <= |T|
    ensures LowReached(succ, T[..pos], discovery, lowLink)
  {
    forall x | x in T[..pos]
      ensures exists y :: LowWitness(succ, T[..pos], discovery, lowLink, x, y)
    {
      var j :| 0 <= j < pos && T[j] == x;
      assert Stacked(T, x);
      var y: nat :| LowWitness(succ, T, discovery, lowLink, x, y);
      var k :| 0 <= k < |T| && T[k] == y;
      assert k <= j;
      assert T[..pos][k] == y;
      assert LowWitness(succ, T[..pos], discovery, lowLink, x, y);
    }
  }

  /** Cutting the stack at the path's top, and dropping the top, keeps every settled vertex settled. */
  lemma SettledTruncate(T: seq<nat>, discovery: seq<nat>, lowLink: seq<nat>, path: seq<nat>, pos: nat)
    requires Settled(T, discovery, lowLink, path) && StackShape(T, discovery, lowLink)
    requires |path| > 0 && pos < |T| && T[pos] == path[|path| - 1]
    ensures Settled(T[..pos], discovery, lowLink, path[..|path| - 1])
  {
    forall x | x in T[..pos] && x !in path[..|path| - 1] && x < |lowLink| && x < |discovery|
      ensures lowLink[x] < discovery[x]
    {
      var j :| 0 <= j < pos && T[j] == x;
      assert discovery[T[j]] < discovery[T[pos]];
      assert path == path[..|path| - 1] + [T[pos]];
      assert x in T && x !in path;
    }
  }

  /** Appending a strongly connected component keeps the components strong. */
  lemma StrongAppend(succ: seq<seq<nat>>, components: seq<seq<nat>>, c: seq<nat>)
    requires Strong(succ, components)
    requires forall x, y :: x in c && y in c ==> Reach(succ, x, y)
    ensures Strong(succ, components + [c])
  {
    var cs := components + [c];
    forall i, x, y | 0 <= i < |cs| && x in cs[i] && y in cs[i]
      ensures Reach(succ, x, y)
    {
      if i < |components| {
        assert cs[i] == components[i];
      }
    }
  }

  /** Appending a non-empty component keeps the components non-empty. */
  lemma NonEmptyAppend(components: seq<seq<nat>>, c: seq<nat>)
    requires NonEmpty(components) && |c| > 0
    ensures NonEmpty(components + [c])
  {
    var cs := components + [c];
    forall i | 0 <= i < |cs|
      ensures |cs[i]| > 0
    {
      if i < |components| {
        assert cs[i] == components[i];
      }
    }
  }

  /** Discovering the start vertex of a DFS keeps the invariant. */
  lemma ReachStart(succ: seq<seq<nat>>, s: State, start: nat)
    requires Valid(succ, s) && s.tarjanStack == [] && start < |succ| && ReachOk(succ, s, [])
    ensures ReachOk(succ, Discover(s, start), [start])
  {
    var r := Discover(s, start);
    LowReachedDiscover(succ, s.tarjanStack, s.discovery, s.lowLink, start, s.currentIndex);
    assert r.tarjanStack == [start];
    ReachesSelf(Step(succ), start);
    assert PathReaches(succ, r.tarjanStack, r.discovery, [start]);
  }

  /** Discovering w from the top of the path keeps the invariant. */
  lemma ReachDiscover(succ: seq<seq<nat>>, s: State, path: seq<nat>, w: nat)
    requires Layout(succ, s, path) && ReachOk(succ, s, path) && |path| > 0
    requires path[|path| - 1] < |succ| && w < |succ| && w in succ[path[|path| - 1]] && s.discovery[w] == 0 && w < |s.onStack|
    ensures ReachOk(succ, Discover(s, w), path + [w])
  {
    var T, c := s.tarjanStack, s.currentIndex;
    assert w !in T;
    LowReachedDiscover(succ, T, s.discovery, s.lowLink, w, c);
    PathReachesDiscover(succ, T, s.discovery, path, w, c);
    SettledDiscover(T, s.discovery, s.lowLink, path, w, c);
  }

  /** Lowering the top's lowLink to a stack vertex it has an edge to keeps the invariant. */
  lemma ReachBackEdge(succ: seq<seq<nat>>, s: State, path: seq<nat>, w: nat)
    requires Layout(succ, s, path) && ReachOk(succ, s, path) && |path| > 0
    requires path[|path| - 1] < |succ| && w in succ[path[|path| - 1]] && w in s.tarjanStack
    ensures ReachOk(succ, LowerTop(s, path[|path| - 1], s.discovery[w]), path)
  {
    var v, T, d := path[|path| - 1], s.tarjanStack, s.discovery[w];
    EdgeReach(succ, v, w);
    assert w in T && w < |s.discovery|;
    LowReachedLower(succ, T, s.discovery, s.lowLink, v, d);
    SettledLower(T, s.discovery, s.lowLink, path, v, d);
  }

  /** Returning from a vertex that is not a root to its parent keeps the invariant. */
  lemma ReachNonRoot(succ: seq<seq<nat>>, s: State, path: seq<nat>)
    requires Layout(succ, s, path) && ReachOk(succ, s, path) && |path| > 1
    requires s.lowLink[path[|path| - 1]] != s.discovery[path[|path| - 1]]
    ensures ReachOk(succ, Parent(s, path[|path| - 2], path[|path| - 1]), path[..|path| - 1])
  {
    var p, v, T := path[|path| - 2], path[|path| - 1], s.tarjanStack;
    assert s.discovery[p] < s.discovery[v];
    assert v in T && p in T;
    if s.lowLink[v] < s.lowLink[p] {
      assert Stacked(T, v);
      var y: nat :| LowWitness(succ, T, s.discovery, s.lowLink, v, y);
      assert Reach(succ, path[|path| - 2], v);
      ReachesTrans(Step(succ), p, v, y);
      assert y in T && y < |s.discovery| && s.discovery[y] == s.lowLink[v] && Reach(succ, p, y);
    }
    LowReachedLower(succ, T, s.discovery, s.lowLink, p, s.lowLink[v]);
    PathReachesShrink(succ, T, s.discovery, path, T, |path| - 1);
    SettledReturn(T, s.discovery, s.lowLink, path);
  }

  /**
   * The shape at a root: the top of the path sits at position `pos` of the
   * Tarjan stack with its lowLink equal to its discovery number, and no
   * stack vertex above it has a lower lowLink.
   */
  ghost predicate RootShape(T: seq<nat>, discovery: seq<nat>, lowLink: seq<nat>, path: seq<nat>, pos: nat)
  {
    StackShape(T, discovery, lowLink) && PathShape(T, discovery, path) &&
    |path| > 0 && pos < |T| && T[pos] == path[|path| - 1] && lowLink[T[pos]] == discovery[T[pos]] &&
    forall j :: pos <= j < |T| ==> lowLink[T[pos]] <= lowLink[T[j]]
  }

  /** The layout at a root. */
  ghost predicate RootLayout(succ: seq<seq<nat>>, s: State, path: seq<nat>, pos: nat)
  {
    Layout(succ, s, path) && RootShape(s.tarjanStack, s.discovery, s.lowLink, path, pos)
  }

  /** The DFS invariant at a root provides the root layout. */
  lemma AtRootLayout(succ: seq<seq<nat>>, s: State, path: seq<nat>, its: seq<nat>, pos: nat)
    requires AtRoot(succ, s, path, its, pos)
    ensures RootLayout(succ, s, path, pos)
    ensures forall i :: 0 <= i < |s.tarjanStack| ==> s.tarjanStack[i] < |s.onStack| && s.tarjanStack[i] < |s.vertexMapping|
  {
    DfsLayout(succ, s, path, its);
    RootMembers(succ, s, path, its, pos);
  }

  /** At a root, every stack vertex from the root up reaches the root. */
  lemma {:induction false} ReachRoot(succ: seq<seq<nat>>, T: seq<nat>, discovery: seq<nat>, lowLink: seq<nat>,
                                     path: seq<nat>, pos: nat, j: nat)
    requires RootShape(T, discovery, lowLink, path, pos)
    requires LowReached(succ, T, discovery, lowLink) && Settled(T, discovery, lowLink, path)
    requires pos <= j < |T|
    ensures Reach(succ, T[j], T[pos])
    decreases j
  {
    var v := T[pos];
    if j == pos {
      ReachesSelf(Step(succ), v);
    } else {
      var x := T[j];
      assert discovery[v] < discovery[x];
      assert x !in path by {
        forall i | 0 <= i < |path|
          ensures path[i] != x
        {
          if i < |path| - 1 {
            assert discovery[path[i]] < discovery[path[|path| - 1]];
          }
        }
      }
      assert Stacked(T, x);
      var y: nat :| LowWitness(succ, T, discovery, lowLink, x, y);
      var k :| 0 <= k < |T| && T[k] == y;
      assert lowLink[x] < discovery[x];
      assert lowLink[v] <= lowLink[x];
      assert pos <= k;
      assert k < j;
      ReachRoot(succ, T, discovery, lowLink, path, pos, k);
      ReachesTrans(Step(succ), x, y, v);
    }
  }

  /** At a root, the vertices from the root up reach each other. */
  lemma RootStrong(succ: seq<seq<nat>>, T: seq<nat>, discovery: seq<nat>, lowLink: seq<nat>, path: seq<nat>, pos: nat)
    requires RootShape(T, discovery, lowLink, path, pos)
    requires LowReached(succ, T, discovery, lowLink) && Settled(T, discovery, lowLink, path)
    requires PathReaches(succ, T, discovery, path)
    ensures forall x, y :: x in T[pos..] && y in T[pos..] ==> Reach(succ, x, y)
  {
    var v := T[pos];
    forall x, y | x in T[pos..] && y in T[pos..]
      ensures Reach(succ, x, y)
    {
      var j :| pos <= j < |T| && T[j] == x;
      var k :| pos <= k < |T| && T[k] == y;
      ReachRoot(succ, T, discovery, lowLink, path, pos, j);
      if k > pos {
        assert discovery[T[pos]] < discovery[T[k]];
      }
      assert y in T && v == path[|path| - 1];
      assert Reach(succ, path[|path| - 1], y);
      ReachesTrans(Step(succ), x, v, y);
    }
  }

  /** Popping the root's component and returning to the parent keeps the invariant. */
  lemma ReachPop(succ: seq<seq<nat>>, s: State, path: seq<nat>, pos: nat)
    requires RootLayout(succ, s, path, pos) && ReachOk(succ, s, path)
    requires forall i :: 0 <= i < |s.tarjanStack| ==> s.tarjanStack[i] < |s.onStack| && s.tarjanStack[i] < |s.vertexMapping|
    ensures forall i :: 0 <= i < |path| ==> path[i] < |Popped(s, pos).lowLink|
    ensures ReachOk(succ, Backtracked(Popped(s, pos), path), path[..|path| - 1])
  {
    var T, v := s.tarjanStack, path[|path| - 1];
    var P := Popped(s, pos);
    assert forall i :: 0 <= i < |path| ==> path[i] in T;
    var B := Backtracked(P, path);
    assert B.lowLink == s.lowLink by {
      if |path| > 1 {
        var p := path[|path| - 2];
        assert s.discovery[p] < s.discovery[v] && p in T;
        assert s.lowLink[p := Min(s.lowLink[p], s.lowLink[v])] == s.lowLink;
      }
    }
    assert B.tarjanStack == T[..pos] && B.discovery == s.discovery;
    assert B.components == s.components + [Reversed(T[pos..])];
    RootStrong(succ, T, s.discovery, s.lowLink, path, pos);
    ReversedMembers(T[pos..]);
    StrongAppend(succ, s.components, Reversed(T[pos..]));
    NonEmptyAppend(s.components, Reversed(T[pos..]));
    LowReachedTruncate(succ, T, s.discovery, s.lowLink, pos);
    PathReachesShrink(succ, T, s.discovery, path, T[..pos], |path| - 1);
    SettledTruncate(T, s.discovery, s.lowLink, path, pos);
  }

  /** At a root of the DFS, popping the component and returning to the parent keeps the invariant. */
  lemma RootReach(succ: seq<seq<nat>>, s: State, path: seq<nat>, its: seq<nat>, pos: nat)
    requires AtRoot(succ, s, path, its, pos) && ReachOk(succ, s, path)
    ensures forall i :: 0 <= i < |path| ==> path[i] < |Popped(s, pos).lowLink|
    ensures ReachOk(succ, Backtracked(Popped(s, pos), path), path[..|path| - 1])
  {
    AtRootLayout(succ, s, path, its, pos);
    ReachPop(succ, s, path, pos);
  }

  /** In the DFS, returning from a vertex that is not a root keeps the invariant. */
  lemma NonRootReach(succ: seq<seq<nat>>, s: State, path: seq<nat>, its: seq<nat>)
    requires Dfs(succ, s, path, its) && ReachOk(succ, s, path) && |path| > 1
    requires s.lowLink[path[|path| - 1]] != s.discovery[path[|path| - 1]]
    ensures ReachOk(succ, Parent(s, path[|path| - 2], path[|path| - 1]), path[..|path| - 1])
  {
    DfsLayout(succ, s, path, its);
    ReachNonRoot(succ, s, path);
  }
}
