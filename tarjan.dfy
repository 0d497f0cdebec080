/**
 * tarjanSCC (src/algorithms/tarjanSCC_labeledEdge.cpp): Tarjan's strongly
 * connected components with an explicit DFS stack, followed by the
 * construction of the component graph.
 *
 * The labelled graph enters as its successor lists: `succ[v]` is the
 * sequence of targets that `getConnected(v)` yields, in order.
 */
module Tarjan {
  import opened DiGraphs
  import opened Sorting
  import opened Paths

  /** Every successor is a vertex of the graph. */
  predicate Graph(succ: seq<seq<nat>>)
  {
    forall v, k :: 0 <= v < |succ| && 0 <= k < |succ[v]| ==> succ[v][k] < |succ|
  }

  /** One edge of the graph. */
  ghost function Step(succ: seq<seq<nat>>): (nat, nat) -> bool
  {
    (u: nat, w: nat) => u < |succ| && w in succ[u]
  }

  /**
   * The state the DFS calls share: `discovery` (0 = not yet discovered),
   * `lowLink`, `onStack` (tarjanVisited), `vertexMapping`, `components`,
   * `currentIndex` and the Tarjan stack (bottom first).
   */
  datatype State = State(discovery: seq<nat>, lowLink: seq<nat>, onStack: seq<bool>, vertexMapping: seq<nat>,
                         components: seq<seq<nat>>, currentIndex: nat, tarjanStack: seq<nat>)

  /** The state of tarjanSCC before its first DFS. */
  function Initial(n: nat): (s: State)
  {
    State(seq(n, _ => 0), seq(n, _ => 0), seq(n, _ => false), seq(n, _ => 0), [], 1, [])
  }

  /** Every per-vertex vector has one slot per vertex; discovery numbers are below currentIndex. */
  ghost predicate Sized(succ: seq<seq<nat>>, s: State)
  {
    Graph(succ) &&
    |s.discovery| == |succ| && |s.lowLink| == |succ| && |s.onStack| == |succ| && |s.vertexMapping| == |succ| &&
    s.currentIndex >= 1 &&
    forall v :: 0 <= v < |succ| ==> s.discovery[v] < s.currentIndex
  }

  /** A discovered vertex that has left the Tarjan stack: it belongs to a component. */
  ghost predicate Assigned(s: State, v: nat)
    requires v < |s.discovery| && v < |s.onStack|
  {
    s.discovery[v] != 0 && !s.onStack[v]
  }

  /**
   * The Tarjan stack holds discovered vertices in increasing discovery
   * order, `onStack` marks exactly its members, and each member's lowLink
   * lies between the bottom's discovery number and its own.
   */
  ghost predicate StackOk(succ: seq<seq<nat>>, s: State)
    requires Sized(succ, s)
  {
    (forall i :: 0 <= i < |s.tarjanStack| ==> s.tarjanStack[i] < |succ| && s.discovery[s.tarjanStack[i]] != 0) &&
    (forall i, j :: 0 <= i < j < |s.tarjanStack| ==>
       s.discovery[s.tarjanStack[i]] < s.discovery[s.tarjanStack[j]]) &&
    (forall v :: 0 <= v < |succ| ==> (s.onStack[v] <==> v in s.tarjanStack)) &&
    (forall v :: 0 <= v < |succ| && s.onStack[v] ==>
       s.lowLink[v] <= s.discovery[v] && s.discovery[s.tarjanStack[0]] <= s.lowLink[v])
  }

  /** Assigned vertices and component members agree, with no vertex listed twice. */
  ghost predicate Partition(succ: seq<seq<nat>>, s: State)
    requires Sized(succ, s)
  {
    MappedIn(succ, s) && MembersMapped(succ, s) && NoRepeats(s)
  }

  /** Every assigned vertex is listed in the component it maps to. */
  ghost predicate MappedIn(succ: seq<seq<nat>>, s: State)
    requires Sized(succ, s)
  {
    forall v :: 0 <= v < |succ| && Assigned(s, v) ==>
      s.vertexMapping[v] < |s.components| && v in s.components[s.vertexMapping[v]]
  }

  /** Every listed member is an assigned vertex mapped to its component. */
  ghost predicate MembersMapped(succ: seq<seq<nat>>, s: State)
    requires Sized(succ, s)
  {
    forall c, x {:trigger x in s.components[c]} :: 0 <= c < |s.components| && x in s.components[c] ==>
      x < |succ| && Assigned(s, x) && s.vertexMapping[x] == c
  }

  /** No component lists a vertex twice. */
  ghost predicate NoRepeats(s: State)
  {
    forall c, i, j :: 0 <= c < |s.components| && 0 <= i < j < |s.components[c]| ==>
      s.components[c][i] != s.components[c][j]
  }

  /** Every edge out of an assigned vertex ends in an assigned vertex of a component no later than its own. */
  ghost predicate Closed(succ: seq<seq<nat>>, s: State)
    requires Sized(succ, s)
  {
    forall v, k :: 0 <= v < |succ| && Assigned(s, v) && 0 <= k < |succ[v]| ==>
      Assigned(s, succ[v][k]) && s.vertexMapping[succ[v][k]] <= s.vertexMapping[v]
  }

  /** The invariant between DFS calls. */
  ghost predicate Valid(succ: seq<seq<nat>>, s: State)
  {
    Sized(succ, s) && StackOk(succ, s) && Partition(succ, s) && Closed(succ, s)
  }

  /**
   * An explored edge x -> w: w is discovered, and either assigned, or on
   * the stack no earlier than x, or low enough to have lowered x's lowLink.
   */
  ghost predicate EdgeOk(s: State, x: nat, w: nat)
    requires x < |s.lowLink| && x < |s.discovery| && w < |s.discovery| && w < |s.onStack|
  {
    s.discovery[w] != 0 && (!s.onStack[w] || s.discovery[w] >= s.discovery[x] || s.lowLink[x] <= s.discovery[w])
  }

  /** The vertex stack `path`, with iterator positions `its`, lies on the Tarjan stack in discovery order from its bottom. */
  ghost predicate PathOk(succ: seq<seq<nat>>, s: State, path: seq<nat>, its: seq<nat>)
    requires Sized(succ, s)
  {
    |its| == |path| && |path| > 0 && |s.tarjanStack| > 0 && path[0] == s.tarjanStack[0] &&
    (forall i :: 0 <= i < |path| ==> path[i] < |succ| && s.onStack[path[i]] && its[i] <= |succ[path[i]]|) &&
    (forall i, j :: 0 <= i < j < |path| ==> s.discovery[path[i]] < s.discovery[path[j]])
  }

  /**
   * Each path vertex's lowLink is at most that of every stack member it
   * owns: those discovered from it onward, up to the next path vertex (for
   * the top of the path, with no bound).
   */
  ghost predicate Owners(succ: seq<seq<nat>>, s: State, path: seq<nat>)
    requires Sized(succ, s)
    requires forall i :: 0 <= i < |path| ==> path[i] < |succ|
  {
    OwnsBelow(succ, s, path) && (|path| > 0 ==> TopOwns(succ, s, path[|path| - 1]))
  }

  /** Each path vertex but the top owns the stack members discovered from it up to the next path vertex. */
  ghost predicate OwnsBelow(succ: seq<seq<nat>>, s: State, path: seq<nat>)
    requires Sized(succ, s)
    requires forall i :: 0 <= i < |path| ==> path[i] < |succ|
  {
    forall i, x ::
      (0 <= i < |path| - 1 && x in s.tarjanStack && x < |succ| &&
       s.discovery[path[i]] <= s.discovery[x] < s.discovery[path[i + 1]]) ==> s.lowLink[path[i]] <= s.lowLink[x]
  }

  /** `v`'s lowLink is at most that of every stack member discovered no earlier. */
  ghost predicate TopOwns(succ: seq<seq<nat>>, s: State, v: nat)
    requires Sized(succ, s) && v < |succ|
  {
    forall x :: (x in s.tarjanStack && x < |succ| && s.discovery[v] <= s.discovery[x]) ==> s.lowLink[v] <= s.lowLink[x]
  }

  /** Every edge the path vertices have explored so far is `EdgeOk`. */
  ghost predicate Explored(succ: seq<seq<nat>>, s: State, path: seq<nat>, its: seq<nat>)
    requires Sized(succ, s) && |its| == |path|
    requires forall i :: 0 <= i < |path| ==> path[i] < |succ| && its[i] <= |succ[path[i]]|
  {
    forall i, k :: 0 <= i < |path| && 0 <= k < its[i] ==> EdgeOk(s, path[i], succ[path[i]][k])
  }

  /** Every edge of a finished vertex still on the Tarjan stack is `EdgeOk`. */
  ghost predicate Finished(succ: seq<seq<nat>>, s: State, path: seq<nat>)
    requires Sized(succ, s)
  {
    forall x, k :: x in s.tarjanStack && x < |succ| && x !in path && 0 <= k < |succ[x]| ==> EdgeOk(s, x, succ[x][k])
  }

  /** The invariant inside one iterativeDFS. */
  ghost predicate Dfs(succ: seq<seq<nat>>, s: State, path: seq<nat>, its: seq<nat>)
  {
    Valid(succ, s) && PathOk(succ, s, path, its) && Owners(succ, s, path) && Explored(succ, s, path, its) &&
    Finished(succ, s, path)
  }

  /** The vertices not yet discovered. */
  function Undiscovered(discovery: seq<nat>): set<nat>
  {
    set v | 0 <= v < |discovery| && discovery[v] == 0
  }

  /** The edges still to be explored along the path, plus one step per path vertex for its backtrack. */
  function Remaining(succ: seq<seq<nat>>, path: seq<nat>, its: seq<nat>): nat
  {
    if |path| == 0 || |its| != |path| then 0
    else
      var v, i := path[|path| - 1], its[|its| - 1];
      Remaining(succ, path[..|path| - 1], its[..|its| - 1]) +
        (if v < |succ| && i <= |succ[v]| then |succ[v]| - i else 0) + 1
  }

  // ---------------------------------------------------------------------
  // The DFS steps
  // ---------------------------------------------------------------------

  /** Discovering w from the top of the path pushes it on both stacks. */
  function Discover(s: State, w: nat): (r: State)
    requires w < |s.discovery| && w < |s.lowLink| && w < |s.onStack|
  {
    s.(discovery := s.discovery[w := s.currentIndex], lowLink := s.lowLink[w := s.currentIndex],
       onStack := s.onStack[w := true], currentIndex := s.currentIndex + 1, tarjanStack := s.tarjanStack + [w])
  }

  lemma DiscoverStep(succ: seq<seq<nat>>, s: State, path: seq<nat>, its: seq<nat>, w: nat)
    requires Dfs(succ, s, path, its)
    requires its[|its| - 1] < |succ[path[|path| - 1]]| && w == succ[path[|path| - 1]][its[|its| - 1]]
    requires s.discovery[w] == 0
    ensures Dfs(succ, Discover(s, w), path + [w], its[|its| - 1 := its[|its| - 1] + 1] + [0])
    ensures Undiscovered(Discover(s, w).discovery) < Undiscovered(s.discovery)
  {
    var r := Discover(s, w);
    var path', its' := path + [w], its[|its| - 1 := its[|its| - 1] + 1] + [0];
    DiscoverValid(succ, s, w);
    DiscoverPath(succ, s, path, its, w);
    DiscoverOwners(succ, s, path, w);
    DiscoverExplored(succ, s, path, its, w);
    DiscoverFinished(succ, s, path, w);
    assert w in Undiscovered(s.discovery) && w !in Undiscovered(r.discovery);
  }

  lemma DiscoverPath(succ: seq<seq<nat>>, s: State, path: seq<nat>, its: seq<nat>, w: nat)
    requires Valid(succ, s) && PathOk(succ, s, path, its) && w < |succ| && s.discovery[w] == 0
    requires its[|its| - 1] < |succ[path[|path| - 1]]|
    ensures Sized(succ, Discover(s, w))
    ensures PathOk(succ, Discover(s, w), path + [w], its[|its| - 1 := its[|its| - 1] + 1] + [0])
  {
    var r := Discover(s, w);
    var path', its' := path + [w], its[|its| - 1 := its[|its| - 1] + 1] + [0];
    forall i | 0 <= i < |path|
      ensures path[i] != w && r.discovery[path[i]] == s.discovery[path[i]] < r.discovery[w]
    {
      assert path[i] in s.tarjanStack;
    }
    assert forall i :: 0 <= i < |path'| ==> path'[i] < |succ| && r.onStack[path'[i]] && its'[i] <= |succ[path'[i]]|;
  }

  lemma DiscoverValid(succ: seq<seq<nat>>, s: State, w: nat)
    requires Valid(succ, s) && w < |succ| && s.discovery[w] == 0
    ensures Valid(succ, Discover(s, w)) && w !in s.tarjanStack
  {
    var r := Discover(s, w);
    assert w !in s.tarjanStack;
    assert Sized(succ, r);
    assert StackOk(succ, r) by {
      forall v | 0 <= v < |succ|
        ensures r.onStack[v] <==> v in r.tarjanStack
      {
        assert v in r.tarjanStack <==> v in s.tarjanStack || v == w;
      }
    }
    assert MembersMapped(succ, r) by {
      forall c, x {:trigger x in r.components[c]} | 0 <= c < |r.components| && x in r.components[c]
        ensures x < |succ| && Assigned(r, x) && r.vertexMapping[x] == c
      {
        ComponentMember(succ, s, c, x);
      }
    }
  }

  lemma DiscoverOwners(succ: seq<seq<nat>>, s: State, path: seq<nat>, w: nat)
    requires Valid(succ, s) && w < |succ| && s.discovery[w] == 0
    requires forall i :: 0 <= i < |path| ==> path[i] < |succ| && s.onStack[path[i]]
    requires |path| > 0 && Owners(succ, s, path)
    ensures Owners(succ, Discover(s, w), path + [w])
  {
    var r := Discover(s, w);
    var path' := path + [w];
    forall i, x | 0 <= i < |path'| - 1 && x in r.tarjanStack && x < |succ| &&
        r.discovery[path'[i]] <= r.discovery[x] < r.discovery[path'[i + 1]]
      ensures r.lowLink[path'[i]] <= r.lowLink[x]
    {
      assert path'[i] != w;
      if i < |path| - 1 {
        assert path'[i + 1] != w;
      }
      assert x != w && x in s.tarjanStack;
    }
    forall x | x in r.tarjanStack && x < |succ| && r.discovery[w] <= r.discovery[x]
      ensures r.lowLink[w] <= r.lowLink[x]
    {
    }
  }

  lemma DiscoverExplored(succ: seq<seq<nat>>, s: State, path: seq<nat>, its: seq<nat>, w: nat)
    requires Valid(succ, s) && PathOk(succ, s, path, its) && Explored(succ, s, path, its)
    requires its[|its| - 1] < |succ[path[|path| - 1]]| && w == succ[path[|path| - 1]][its[|its| - 1]]
    requires s.discovery[w] == 0
    ensures Explored(succ, Discover(s, w), path + [w], its[|its| - 1 := its[|its| - 1] + 1] + [0])
  {
    var r := Discover(s, w);
    var path', its' := path + [w], its[|its| - 1 := its[|its| - 1] + 1] + [0];
    forall i, k | 0 <= i < |path'| && 0 <= k < its'[i]
      ensures EdgeOk(r, path'[i], succ[path'[i]][k])
    {
      if i < |path| - 1 || k < its[|its| - 1] {
        assert EdgeOk(s, path[i], succ[path[i]][k]);
        assert path[i] != w;
      }
    }
  }

  lemma DiscoverFinished(succ: seq<seq<nat>>, s: State, path: seq<nat>, w: nat)
    requires Valid(succ, s) && w < |succ| && s.discovery[w] == 0 && Finished(succ, s, path)
    ensures Finished(succ, Discover(s, w), path + [w])
  {
    var r := Discover(s, w);
    forall x, k | x in r.tarjanStack && x < |succ| && x !in path + [w] && 0 <= k < |succ[x]|
      ensures EdgeOk(r, x, succ[x][k])
    {
      assert x in s.tarjanStack;
      assert EdgeOk(s, x, succ[x][k]);
    }
  }

  /** An edge to a vertex on the stack lowers the top's lowLink to that vertex's discovery number. */
  function LowerTop(s: State, v: nat, d: nat): State
    requires v < |s.lowLink|
  {
    s.(lowLink := s.lowLink[v := Min(s.lowLink[v], d)])
  }

  lemma BackEdgeStep(succ: seq<seq<nat>>, s: State, path: seq<nat>, its: seq<nat>, w: nat)
    requires Dfs(succ, s, path, its)
    requires its[|its| - 1] < |succ[path[|path| - 1]]| && w == succ[path[|path| - 1]][its[|its| - 1]]
    requires s.discovery[w] != 0 && s.onStack[w]
    ensures Dfs(succ, LowerTop(s, path[|path| - 1], s.discovery[w]), path, its[|its| - 1 := its[|its| - 1] + 1])
  {
    var v := path[|path| - 1];
    BackEdgeValid(succ, s, v, w);
    BackEdgeOwners(succ, s, path, its, s.discovery[w]);
    BackEdgeExplored(succ, s, path, its, w);
    BackEdgeFinished(succ, s, path, s.discovery[w]);
  }

  lemma BackEdgeValid(succ: seq<seq<nat>>, s: State, v: nat, w: nat)
    requires Valid(succ, s) && v < |succ| && w < |succ| && s.onStack[v] && s.onStack[w]
    ensures Valid(succ, LowerTop(s, v, s.discovery[w]))
  {
    var r := LowerTop(s, v, s.discovery[w]);
    assert w in s.tarjanStack;
    forall c, x {:trigger x in r.components[c]} | 0 <= c < |r.components| && x in r.components[c]
      ensures x < |succ| && Assigned(r, x) && r.vertexMapping[x] == c
    {
      ComponentMember(succ, s, c, x);
    }
    assert MembersMapped(succ, r);
  }

  lemma BackEdgeExplored(succ: seq<seq<nat>>, s: State, path: seq<nat>, its: seq<nat>, w: nat)
    requires Sized(succ, s) && PathOk(succ, s, path, its) && Explored(succ, s, path, its)
    requires its[|its| - 1] < |succ[path[|path| - 1]]| && w == succ[path[|path| - 1]][its[|its| - 1]]
    requires s.discovery[w] != 0
    ensures Explored(succ, LowerTop(s, path[|path| - 1], s.discovery[w]), path, its[|its| - 1 := its[|its| - 1] + 1])
  {
    var r := LowerTop(s, path[|path| - 1], s.discovery[w]);
    var its' := its[|its| - 1 := its[|its| - 1] + 1];
    forall i, k | 0 <= i < |path| && 0 <= k < its'[i]
      ensures EdgeOk(r, path[i], succ[path[i]][k])
    {
      if i < |path| - 1 || k < its[|its| - 1] {
        assert EdgeOk(s, path[i], succ[path[i]][k]);
      }
    }
  }

  lemma BackEdgeFinished(succ: seq<seq<nat>>, s: State, path: seq<nat>, d: nat)
    requires Sized(succ, s) && |path| > 0 && path[|path| - 1] < |succ| && Finished(succ, s, path)
    ensures Finished(succ, LowerTop(s, path[|path| - 1], d), path)
  {
    var r := LowerTop(s, path[|path| - 1], d);
    forall x, k | x in r.tarjanStack && x < |succ| && x !in path && 0 <= k < |succ[x]|
      ensures EdgeOk(r, x, succ[x][k])
    {
      assert EdgeOk(s, x, succ[x][k]);
    }
  }

  lemma BackEdgeOwners(succ: seq<seq<nat>>, s: State, path: seq<nat>, its: seq<nat>, d: nat)
    requires Sized(succ, s) && PathOk(succ, s, path, its) && Owners(succ, s, path)
    ensures Owners(succ, LowerTop(s, path[|path| - 1], d), path)
  {
    var v := path[|path| - 1];
    var r := LowerTop(s, v, d);
    assert Sized(succ, r);
    forall i, x | 0 <= i < |path| - 1 && x in r.tarjanStack && x < |succ| &&
        r.discovery[path[i]] <= r.discovery[x] < r.discovery[path[i + 1]]
      ensures r.lowLink[path[i]] <= r.lowLink[x]
    {
      assert s.discovery[path[i + 1]] <= s.discovery[v];
      assert path[i] != v && x != v;
    }
    assert TopOwns(succ, s, v);
  }

  /** An edge to an assigned vertex changes nothing but the iterator. */
  lemma CrossEdgeStep(succ: seq<seq<nat>>, s: State, path: seq<nat>, its: seq<nat>, w: nat)
    requires Dfs(succ, s, path, its)
    requires its[|its| - 1] < |succ[path[|path| - 1]]| && w == succ[path[|path| - 1]][its[|its| - 1]]
    requires s.discovery[w] != 0 && !s.onStack[w]
    ensures Dfs(succ, s, path, its[|its| - 1 := its[|its| - 1] + 1])
  {
    var its' := its[|its| - 1 := its[|its| - 1] + 1];
    forall i, k | 0 <= i < |path| && 0 <= k < its'[i]
      ensures EdgeOk(s, path[i], succ[path[i]][k])
    {
      if i < |path| - 1 || k < its[|its| - 1] {
        assert EdgeOk(s, path[i], succ[path[i]][k]);
      }
    }
  }

  function Min(a: nat, b: nat): nat
  {
    if a <= b then a else b
  }

  /** Exploring one more edge leaves one step less to do. */
  lemma RemainingAdvance(succ: seq<seq<nat>>, path: seq<nat>, its: seq<nat>)
    requires |path| == |its| > 0 && path[|path| - 1] < |succ| && its[|its| - 1] < |succ[path[|path| - 1]]|
    ensures Remaining(succ, path, its[|its| - 1 := its[|its| - 1] + 1]) < Remaining(succ, path, its)
  {
    var its' := its[|its| - 1 := its[|its| - 1] + 1];
    assert its'[..|its'| - 1] == its[..|its| - 1];
  }

  /** Leaving the top path vertex leaves one step less to do. */
  lemma RemainingPop(succ: seq<seq<nat>>, path: seq<nat>, its: seq<nat>)
    requires |path| == |its| > 0
    ensures Remaining(succ, path[..|path| - 1], its[..|its| - 1]) < Remaining(succ, path, its)
  {
  }

  // ---------------------------------------------------------------------
  // Backtracking
  // ---------------------------------------------------------------------

  /** The sequence in the opposite order. */
  function Reversed(xs: seq<nat>): (r: seq<nat>)
    ensures |r| == |xs|
    ensures forall i :: 0 <= i < |xs| ==> r[i] == xs[|xs| - 1 - i]
  {
    if xs == [] then [] else Reversed(xs[1..]) + [xs[0]]
  }

  /** Reversing keeps the members. */
  lemma ReversedMembers(xs: seq<nat>)
    ensures forall x :: x in Reversed(xs) <==> x in xs
  {
    forall x | x in xs
      ensures x in Reversed(xs)
    {
      var j :| 0 <= j < |xs| && xs[j] == x;
      assert Reversed(xs)[|xs| - 1 - j] == x;
    }
  }

  /** Reversing keeps a sequence free of repeats. */
  lemma ReversedDistinct(xs: seq<nat>)
    requires forall i, j :: 0 <= i < j < |xs| ==> xs[i] != xs[j]
    ensures forall i, j :: 0 <= i < j < |xs| ==> Reversed(xs)[i] != Reversed(xs)[j]
  {
    forall i, j | 0 <= i < j < |xs|
      ensures Reversed(xs)[i] != Reversed(xs)[j]
    {
      assert Reversed(xs)[i] == xs[|xs| - 1 - i] && Reversed(xs)[j] == xs[|xs| - 1 - j];
    }
  }

  /** One round of the do-while at the root: pop the top of the Tarjan stack into component `c`. */
  function PopOne(s: State, c: nat): State
    requires |s.tarjanStack| > 0
    requires s.tarjanStack[|s.tarjanStack| - 1] < |s.onStack| && s.tarjanStack[|s.tarjanStack| - 1] < |s.vertexMapping|
  {
    var x := s.tarjanStack[|s.tarjanStack| - 1];
    s.(tarjanStack := s.tarjanStack[..|s.tarjanStack| - 1], onStack := s.onStack[x := false],
       vertexMapping := s.vertexMapping[x := c])
  }

  /**
   * Popping until only `pos` entries remain: the popped vertices leave the
   * stack and are mapped to `c`, and nothing else changes.
   */
  function PopFrom(s: State, pos: nat, c: nat): (r: State)
    requires pos <= |s.tarjanStack|
    requires forall i :: 0 <= i < |s.tarjanStack| ==> s.tarjanStack[i] < |s.onStack| && s.tarjanStack[i] < |s.vertexMapping|
    ensures r.tarjanStack == s.tarjanStack[..pos]
    ensures r.discovery == s.discovery && r.lowLink == s.lowLink && r.components == s.components
    ensures r.currentIndex == s.currentIndex
    ensures |r.onStack| == |s.onStack| && |r.vertexMapping| == |s.vertexMapping|
    ensures forall x :: 0 <= x < |s.onStack| ==> (r.onStack[x] <==> s.onStack[x] && x !in s.tarjanStack[pos..])
    ensures forall x :: 0 <= x < |s.vertexMapping| ==>
      r.vertexMapping[x] == if x in s.tarjanStack[pos..] then c else s.vertexMapping[x]
    decreases |s.tarjanStack| - pos
  {
    if |s.tarjanStack| == pos then s
    else
      var t := PopOne(s, c);
      assert t.tarjanStack[pos..] + [s.tarjanStack[|s.tarjanStack| - 1]] == s.tarjanStack[pos..];
      PopFrom(t, pos, c)
  }

  /** The state after the root `s.tarjanStack[pos]` has popped its component. */
  function Popped(s: State, pos: nat): State
    requires pos <= |s.tarjanStack|
    requires forall i :: 0 <= i < |s.tarjanStack| ==> s.tarjanStack[i] < |s.onStack| && s.tarjanStack[i] < |s.vertexMapping|
  {
    PopFrom(s, pos, |s.components|).(components := s.components + [Reversed(s.tarjanStack[pos..])])
  }

  /** Back at the parent: its lowLink takes the minimum with the child's. */
  function Parent(s: State, p: nat, v: nat): State
    requires p < |s.lowLink| && v < |s.lowLink|
  {
    s.(lowLink := s.lowLink[p := Min(s.lowLink[p], s.lowLink[v])])
  }

  /** The top of the path has explored all its edges. */
  ghost predicate Exhausted(succ: seq<seq<nat>>, s: State, path: seq<nat>, its: seq<nat>)
  {
    Dfs(succ, s, path, its) && its[|its| - 1] == |succ[path[|path| - 1]]|
  }

  /** The top of the path is a root, found at position `pos` of the Tarjan stack. */
  ghost predicate AtRoot(succ: seq<seq<nat>>, s: State, path: seq<nat>, its: seq<nat>, pos: nat)
  {
    Exhausted(succ, s, path, its) && s.lowLink[path[|path| - 1]] == s.discovery[path[|path| - 1]] &&
    pos < |s.tarjanStack| && s.tarjanStack[pos] == path[|path| - 1]
  }

  /** No vertex appears twice on the Tarjan stack. */
  lemma StackDistinct(succ: seq<seq<nat>>, s: State)
    requires Sized(succ, s) && StackOk(succ, s)
    ensures forall i, j :: 0 <= i < j < |s.tarjanStack| ==> s.tarjanStack[i] != s.tarjanStack[j]
  {
  }

  /**
   * What the pop at root `s.tarjanStack[pos]` relies on: the root's lowLink
   * is its own discovery number, it owns every member above it, and every
   * edge out of those members is `EdgeOk`.
   */
  ghost predicate RootReady(succ: seq<seq<nat>>, s: State, pos: nat)
    requires Valid(succ, s) && pos < |s.tarjanStack|
  {
    var T := s.tarjanStack;
    s.lowLink[T[pos]] == s.discovery[T[pos]] &&
    (forall j :: pos <= j < |T| ==> s.lowLink[T[pos]] <= s.lowLink[T[j]]) &&
    (forall j, k :: pos <= j < |T| && 0 <= k < |succ[T[j]]| ==> EdgeOk(s, T[j], succ[T[j]][k]))
  }

  /** At a root of the DFS, the pop is ready. */
  lemma RootMembers(succ: seq<seq<nat>>, s: State, path: seq<nat>, its: seq<nat>, pos: nat)
    requires AtRoot(succ, s, path, its, pos)
    ensures RootReady(succ, s, pos)
  {
    var v, T := path[|path| - 1], s.tarjanStack;
    forall j | pos <= j < |T|
      ensures s.lowLink[v] <= s.lowLink[T[j]]
    {
      assert T[j] in T;
      if j > pos {
        assert s.discovery[v] < s.discovery[T[j]];
      }
      assert TopOwns(succ, s, v);
    }
    forall j, k | pos <= j < |T| && 0 <= k < |succ[T[j]]|
      ensures EdgeOk(s, T[j], succ[T[j]][k])
    {
      if j > pos {
        assert T[j] !in path by {
          forall i | 0 <= i < |path|
            ensures path[i] != T[j]
          {
            assert s.discovery[path[i]] <= s.discovery[v];
          }
        }
        assert T[j] in T;
      }
    }
  }

  lemma RootStackOk(succ: seq<seq<nat>>, s: State, pos: nat)
    requires Sized(succ, s) && StackOk(succ, s) && pos < |s.tarjanStack|
    ensures Sized(succ, Popped(s, pos)) && StackOk(succ, Popped(s, pos))
  {
    RootOnStack(succ, s, pos);
  }

  /** After the pop, `onStack` still marks exactly the Tarjan stack. */
  lemma RootOnStack(succ: seq<seq<nat>>, s: State, pos: nat)
    requires Sized(succ, s) && StackOk(succ, s) && pos < |s.tarjanStack|
    ensures forall x :: 0 <= x < |succ| ==> (Popped(s, pos).onStack[x] <==> x in Popped(s, pos).tarjanStack)
  {
    var r, T := Popped(s, pos), s.tarjanStack;
    StackDistinct(succ, s);
    forall x | 0 <= x < |succ|
      ensures r.onStack[x] <==> x in r.tarjanStack
    {
      if x in T[..pos] {
        var j :| 0 <= j < pos && T[j] == x;
        assert x !in T[pos..];
      }
    }
  }

  lemma RootPartition(succ: seq<seq<nat>>, s: State, pos: nat)
    requires Valid(succ, s) && pos < |s.tarjanStack|
    requires Sized(succ, Popped(s, pos))
    ensures Partition(succ, Popped(s, pos))
  {
    RootAssigned(succ, s, pos);
    RootComponents(succ, s, pos);
    var r, C := Popped(s, pos), s.tarjanStack[pos..];
    StackDistinct(succ, s);
    ReversedDistinct(C);
    assert r.components == s.components + [Reversed(C)];
  }

  lemma RootAssigned(succ: seq<seq<nat>>, s: State, pos: nat)
    requires Valid(succ, s) && pos < |s.tarjanStack|
    requires Sized(succ, Popped(s, pos))
    ensures MappedIn(succ, Popped(s, pos))
  {
    var r, C := Popped(s, pos), s.tarjanStack[pos..];
    forall v | 0 <= v < |succ| && Assigned(r, v)
      ensures r.vertexMapping[v] < |r.components| && v in r.components[r.vertexMapping[v]]
    {
      if v in C {
        ReversedMembers(C);
      }
    }
  }

  lemma RootComponents(succ: seq<seq<nat>>, s: State, pos: nat)
    requires Valid(succ, s) && pos < |s.tarjanStack|
    requires Sized(succ, Popped(s, pos))
    ensures MembersMapped(succ, Popped(s, pos))
  {
    var r, T, c := Popped(s, pos), s.tarjanStack, |s.components|;
    var C := T[pos..];
    forall d, x {:trigger x in r.components[d]} | 0 <= d < |r.components| && x in r.components[d]
      ensures x < |succ| && Assigned(r, x) && r.vertexMapping[x] == d
    {
      if d == c {
        ReversedMembers(C);
        assert r.components[d] == Reversed(C);
        var j :| pos <= j < |T| && T[j] == x;
        assert x < |succ| && s.discovery[x] != 0;
      } else {
        assert x in s.components[d];
        ComponentMember(succ, s, d, x);
        assert x !in T;
      }
    }
  }

  /** One instance of `Partition`. */
  lemma ComponentMember(succ: seq<seq<nat>>, s: State, c: nat, x: nat)
    requires Valid(succ, s) && c < |s.components| && x in s.components[c]
    ensures x < |succ| && Assigned(s, x) && s.vertexMapping[x] == c
  {
  }

  lemma RootClosed(succ: seq<seq<nat>>, s: State, pos: nat)
    requires Valid(succ, s) && pos < |s.tarjanStack| && RootReady(succ, s, pos)
    requires Sized(succ, Popped(s, pos))
    ensures Closed(succ, Popped(s, pos))
  {
    var r, T, c := Popped(s, pos), s.tarjanStack, |s.components|;
    forall u, k | 0 <= u < |succ| && Assigned(r, u) && 0 <= k < |succ[u]|
      ensures Assigned(r, succ[u][k]) && r.vertexMapping[succ[u][k]] <= r.vertexMapping[u]
    {
      var w := succ[u][k];
      if u in T[pos..] {
        var j :| pos <= j < |T| && T[j] == u;
        assert EdgeOk(s, u, w);
        if s.onStack[w] {
          var jw :| 0 <= jw < |T| && T[jw] == w;
          if jw < pos {
            assert false;
          }
          assert w in T[pos..];
        }
      }
    }
  }

  /** After the pop the invariant between DFS calls holds; a root at the bottom of the path empties the Tarjan stack. */
  lemma RootValid(succ: seq<seq<nat>>, s: State, path: seq<nat>, its: seq<nat>, pos: nat)
    requires AtRoot(succ, s, path, its, pos)
    ensures Valid(succ, Popped(s, pos))
    ensures |path| == 1 ==> Popped(s, pos).tarjanStack == []
    ensures |path| > 1 ==> pos > 0
  {
    RootMembers(succ, s, path, its, pos);
    RootStackOk(succ, s, pos);
    RootPartition(succ, s, pos);
    RootClosed(succ, s, pos);
    StackDistinct(succ, s);
    if |path| == 1 {
      assert s.tarjanStack[0] == s.tarjanStack[pos];
    } else {
      assert s.discovery[path[0]] < s.discovery[path[|path| - 1]];
    }
  }

  /** An `EdgeOk` edge stays so when vertices leave the stack or lowLinks drop. */
  lemma EdgeOkKept(s: State, r: State, x: nat, w: nat)
    requires x < |s.lowLink| && x < |s.discovery| && w < |s.discovery| && w < |s.onStack|
    requires |r.lowLink| == |s.lowLink| && r.discovery == s.discovery && |r.onStack| == |s.onStack|
    requires r.onStack[w] ==> s.onStack[w]
    requires r.lowLink[x] <= s.lowLink[x]
    requires EdgeOk(s, x, w)
    ensures EdgeOk(r, x, w)
  {
  }

  /** Back at the parent of a root: the DFS invariant holds for the shorter path. */
  lemma RootParent(succ: seq<seq<nat>>, s: State, path: seq<nat>, its: seq<nat>, pos: nat)
    requires AtRoot(succ, s, path, its, pos) && |path| > 1
    ensures Dfs(succ, Parent(Popped(s, pos), path[|path| - 2], path[|path| - 1]), path[..|path| - 1], its[..|its| - 1])
  {
    RootParentKeeps(succ, s, path, its, pos);
    RootPopped(succ, s, path, its, pos);
  }

  /** The parent of a root keeps its lowLink: it is at most its discovery number, which is below the root's. */
  lemma RootParentKeeps(succ: seq<seq<nat>>, s: State, path: seq<nat>, its: seq<nat>, pos: nat)
    requires Sized(succ, s) && StackOk(succ, s) && PathOk(succ, s, path, its) && |path| > 1 && pos < |s.tarjanStack|
    requires s.lowLink[path[|path| - 1]] == s.discovery[path[|path| - 1]]
    ensures Parent(Popped(s, pos), path[|path| - 2], path[|path| - 1]) == Popped(s, pos)
  {
    var r := Popped(s, pos);
    var p, v := path[|path| - 2], path[|path| - 1];
    assert s.lowLink[p] <= s.discovery[p] < s.discovery[v];
    assert r.lowLink[p := r.lowLink[p]] == r.lowLink;
  }

  /** After the pop the DFS invariant holds for the path without the root. */
  lemma RootPopped(succ: seq<seq<nat>>, s: State, path: seq<nat>, its: seq<nat>, pos: nat)
    requires AtRoot(succ, s, path, its, pos) && |path| > 1
    ensures Dfs(succ, Popped(s, pos), path[..|path| - 1], its[..|its| - 1])
  {
    RootValid(succ, s, path, its, pos);
    RootParentPath(succ, s, path, its, pos);
    RootParentOwners(succ, s, path, its, pos);
    RootParentEdges(succ, s, path, its, pos);
  }

  lemma RootParentPath(succ: seq<seq<nat>>, s: State, path: seq<nat>, its: seq<nat>, pos: nat)
    requires Sized(succ, s) && StackOk(succ, s) && PathOk(succ, s, path, its) && |path| > 1
    requires 0 < pos < |s.tarjanStack| && s.tarjanStack[pos] == path[|path| - 1]
    requires Sized(succ, Popped(s, pos))
    ensures PathOk(succ, Popped(s, pos), path[..|path| - 1], its[..|its| - 1])
  {
    var r, T := Popped(s, pos), s.tarjanStack;
    var v := path[|path| - 1];
    var path', its' := path[..|path| - 1], its[..|its| - 1];
    StackDistinct(succ, s);
    assert r.tarjanStack == T[..pos] && r.discovery == s.discovery && |r.onStack| == |s.onStack|;
    assert path'[0] == r.tarjanStack[0];
    forall i | 0 <= i < |path'|
      ensures path'[i] < |succ| && r.onStack[path'[i]] && its'[i] <= |succ[path'[i]]|
    {
      assert path'[i] == path[i] && its'[i] == its[i];
      assert s.discovery[path[i]] < s.discovery[v];
      assert path[i] !in T[pos..];
    }
    forall i, j | 0 <= i < j < |path'|
      ensures r.discovery[path'[i]] < r.discovery[path'[j]]
    {
      assert path'[i] == path[i] && path'[j] == path[j];
    }
  }

  lemma RootParentOwners(succ: seq<seq<nat>>, s: State, path: seq<nat>, its: seq<nat>, pos: nat)
    requires Sized(succ, s) && StackOk(succ, s) && PathOk(succ, s, path, its) && Owners(succ, s, path) && |path| > 1
    requires 0 < pos < |s.tarjanStack| && s.tarjanStack[pos] == path[|path| - 1]
    ensures Owners(succ, Popped(s, pos), path[..|path| - 1])
  {
    RootParentBelow(succ, s, path, its, pos);
    RootParentTop(succ, s, path, its, pos);
  }

  lemma RootParentBelow(succ: seq<seq<nat>>, s: State, path: seq<nat>, its: seq<nat>, pos: nat)
    requires Sized(succ, s) && StackOk(succ, s) && PathOk(succ, s, path, its) && Owners(succ, s, path) && |path| > 1
    requires pos <= |s.tarjanStack|
    ensures Sized(succ, Popped(s, pos))
    ensures OwnsBelow(succ, Popped(s, pos), path[..|path| - 1])
  {
    var r, path' := Popped(s, pos), path[..|path| - 1];
    assert r.discovery == s.discovery && r.lowLink == s.lowLink && r.tarjanStack == s.tarjanStack[..pos];
    forall i, x | 0 <= i < |path'| - 1 && x in r.tarjanStack && x < |succ| &&
        r.discovery[path'[i]] <= r.discovery[x] < r.discovery[path'[i + 1]]
      ensures r.lowLink[path'[i]] <= r.lowLink[x]
    {
      assert path'[i] == path[i] && path'[i + 1] == path[i + 1];
      assert x in s.tarjanStack[..pos];
    }
  }

  lemma RootParentTop(succ: seq<seq<nat>>, s: State, path: seq<nat>, its: seq<nat>, pos: nat)
    requires Sized(succ, s) && StackOk(succ, s) && PathOk(succ, s, path, its) && Owners(succ, s, path) && |path| > 1
    requires 0 < pos < |s.tarjanStack| && s.tarjanStack[pos] == path[|path| - 1]
    ensures Sized(succ, Popped(s, pos))
    ensures TopOwns(succ, Popped(s, pos), path[|path| - 2])
  {
    var r, T := Popped(s, pos), s.tarjanStack;
    var p, v := path[|path| - 2], path[|path| - 1];
    forall x | x in r.tarjanStack && x < |succ| && r.discovery[p] <= r.discovery[x]
      ensures r.lowLink[p] <= r.lowLink[x]
    {
      assert x in T[..pos];
      assert s.discovery[x] < s.discovery[v];
      assert x in T;
    }
  }

  lemma RootParentEdges(succ: seq<seq<nat>>, s: State, path: seq<nat>, its: seq<nat>, pos: nat)
    requires Sized(succ, s) && StackOk(succ, s) && PathOk(succ, s, path, its)
    requires Explored(succ, s, path, its) && Finished(succ, s, path)
    requires |path| > 1 && pos < |s.tarjanStack| && s.tarjanStack[pos] == path[|path| - 1]
    ensures Explored(succ, Popped(s, pos), path[..|path| - 1], its[..|its| - 1])
    ensures Finished(succ, Popped(s, pos), path[..|path| - 1])
  {
    RootParentExplored(succ, s, path, its, pos);
    RootParentFinished(succ, s, path, its, pos);
  }

  /** The edges the remaining path vertices explored stay `EdgeOk` after the pop. */
  lemma RootParentExplored(succ: seq<seq<nat>>, s: State, path: seq<nat>, its: seq<nat>, pos: nat)
    requires Sized(succ, s) && StackOk(succ, s) && PathOk(succ, s, path, its) && Explored(succ, s, path, its)
    requires |path| > 1 && pos < |s.tarjanStack|
    ensures Explored(succ, Popped(s, pos), path[..|path| - 1], its[..|its| - 1])
  {
    var r := Popped(s, pos);
    var path', its' := path[..|path| - 1], its[..|its| - 1];
    forall i, k | 0 <= i < |path'| && 0 <= k < its'[i]
      ensures EdgeOk(r, path'[i], succ[path'[i]][k])
    {
      assert path'[i] == path[i] && its'[i] == its[i];
      assert EdgeOk(s, path[i], succ[path[i]][k]);
      EdgeOkKept(s, r, path[i], succ[path[i]][k]);
    }
  }

  /** The finished vertices left on the stack, and the root itself, have `EdgeOk` edges after the pop. */
  lemma RootParentFinished(succ: seq<seq<nat>>, s: State, path: seq<nat>, its: seq<nat>, pos: nat)
    requires Sized(succ, s) && StackOk(succ, s) && PathOk(succ, s, path, its) && Finished(succ, s, path)
    requires |path| > 1 && pos < |s.tarjanStack| && s.tarjanStack[pos] == path[|path| - 1]
    ensures Finished(succ, Popped(s, pos), path[..|path| - 1])
  {
    var r, T := Popped(s, pos), s.tarjanStack;
    var v := path[|path| - 1];
    var path' := path[..|path| - 1];
    StackDistinct(succ, s);
    forall x, k | x in r.tarjanStack && x < |succ| && x !in path' && 0 <= k < |succ[x]|
      ensures EdgeOk(r, x, succ[x][k])
    {
      assert x in T[..pos];
      assert x != v;
      assert x in T && x !in path;
      assert EdgeOk(s, x, succ[x][k]);
      EdgeOkKept(s, r, x, succ[x][k]);
    }
  }

  /** Leaving a vertex that is not a root: it stays on the Tarjan stack and its parent inherits its lowLink. */
  lemma NonRootStep(succ: seq<seq<nat>>, s: State, path: seq<nat>, its: seq<nat>)
    requires Exhausted(succ, s, path, its)
    requires s.lowLink[path[|path| - 1]] != s.discovery[path[|path| - 1]]
    ensures |path| > 1
    ensures Dfs(succ, Parent(s, path[|path| - 2], path[|path| - 1]), path[..|path| - 1], its[..|its| - 1])
  {
    var v := path[|path| - 1];
    assert |path| > 1;
    var p := path[|path| - 2];
    NonRootValid(succ, s, p, v);
    NonRootOwners(succ, s, path, its);
    NonRootEdges(succ, s, path, its);
  }

  lemma NonRootValid(succ: seq<seq<nat>>, s: State, p: nat, v: nat)
    requires Valid(succ, s) && p < |succ| && v < |succ| && s.onStack[p] && s.onStack[v]
    ensures Valid(succ, Parent(s, p, v))
  {
    var r := Parent(s, p, v);
    assert p in s.tarjanStack && v in s.tarjanStack;
    forall c, x {:trigger x in r.components[c]} | 0 <= c < |r.components| && x in r.components[c]
      ensures x < |succ| && Assigned(r, x) && r.vertexMapping[x] == c
    {
      ComponentMember(succ, s, c, x);
    }
    assert MembersMapped(succ, r);
  }

  lemma NonRootOwners(succ: seq<seq<nat>>, s: State, path: seq<nat>, its: seq<nat>)
    requires Sized(succ, s) && PathOk(succ, s, path, its) && Owners(succ, s, path) && |path| > 1
    ensures Sized(succ, Parent(s, path[|path| - 2], path[|path| - 1]))
    ensures PathOk(succ, Parent(s, path[|path| - 2], path[|path| - 1]), path[..|path| - 1], its[..|its| - 1])
    ensures Owners(succ, Parent(s, path[|path| - 2], path[|path| - 1]), path[..|path| - 1])
  {
    NonRootBelow(succ, s, path, its);
    NonRootTop(succ, s, path, its);
  }

  /** The parent's lowLink only drops, so the owners below it keep their bounds. */
  lemma NonRootBelow(succ: seq<seq<nat>>, s: State, path: seq<nat>, its: seq<nat>)
    requires Sized(succ, s) && PathOk(succ, s, path, its) && Owners(succ, s, path) && |path| > 1
    ensures Sized(succ, Parent(s, path[|path| - 2], path[|path| - 1]))
    ensures forall i, x ::
      (0 <= i < |path| - 2 && x in s.tarjanStack && x < |succ| &&
       s.discovery[path[i]] <= s.discovery[x] < s.discovery[path[i + 1]]) ==>
        Parent(s, path[|path| - 2], path[|path| - 1]).lowLink[path[i]] <= Parent(s, path[|path| - 2], path[|path| - 1]).lowLink[x]
  {
    var p, v := path[|path| - 2], path[|path| - 1];
    var r := Parent(s, p, v);
    forall i, x | 0 <= i < |path| - 2 && x in s.tarjanStack && x < |succ| &&
        s.discovery[path[i]] <= s.discovery[x] < s.discovery[path[i + 1]]
      ensures r.lowLink[path[i]] <= r.lowLink[x]
    {
      assert s.discovery[path[i + 1]] <= s.discovery[p];
      assert path[i] != p && x != p;
    }
  }

  /** The parent, now the top of the path, owns its own members and, through the child's lowLink, the child's. */
  lemma NonRootTop(succ: seq<seq<nat>>, s: State, path: seq<nat>, its: seq<nat>)
    requires Sized(succ, s) && PathOk(succ, s, path, its) && Owners(succ, s, path) && |path| > 1
    ensures Sized(succ, Parent(s, path[|path| - 2], path[|path| - 1]))
    ensures TopOwns(succ, Parent(s, path[|path| - 2], path[|path| - 1]), path[|path| - 2])
  {
    var p, v := path[|path| - 2], path[|path| - 1];
    var r := Parent(s, p, v);
    forall x | x in r.tarjanStack && x < |succ| && r.discovery[p] <= r.discovery[x]
      ensures r.lowLink[p] <= r.lowLink[x]
    {
      if x != p {
        if s.discovery[x] < s.discovery[v] {
          assert s.lowLink[path[|path| - 2]] <= s.lowLink[x];
        } else {
          assert TopOwns(succ, s, v);
        }
      }
    }
  }

  lemma NonRootEdges(succ: seq<seq<nat>>, s: State, path: seq<nat>, its: seq<nat>)
    requires Exhausted(succ, s, path, its) && |path| > 1
    ensures Explored(succ, Parent(s, path[|path| - 2], path[|path| - 1]), path[..|path| - 1], its[..|its| - 1])
    ensures Finished(succ, Parent(s, path[|path| - 2], path[|path| - 1]), path[..|path| - 1])
  {
    var p, v := path[|path| - 2], path[|path| - 1];
    var r, path', its' := Parent(s, p, v), path[..|path| - 1], its[..|its| - 1];
    forall i, k | 0 <= i < |path'| && 0 <= k < its'[i]
      ensures EdgeOk(r, path'[i], succ[path'[i]][k])
    {
      EdgeOkKept(s, r, path[i], succ[path[i]][k]);
    }
    forall x, k | x in r.tarjanStack && x < |succ| && x !in path' && 0 <= k < |succ[x]|
      ensures EdgeOk(r, x, succ[x][k])
    {
      if x == v {
        assert EdgeOk(s, path[|path| - 1], succ[path[|path| - 1]][k]);
      } else {
        assert x !in path;
      }
      EdgeOkKept(s, r, x, succ[x][k]);
    }
  }

  // ---------------------------------------------------------------------
  // iterativeDFS
  // ---------------------------------------------------------------------

  /** What one iterativeDFS call keeps: discovered vertices stay discovered, `start` among them, and components are only appended. */
  ghost predicate Kept(succ: seq<seq<nat>>, s0: State, start: nat, s: State)
  {
    |s0.discovery| == |succ| && |s.discovery| == |succ| && start < |succ| && s.discovery[start] != 0 &&
    (forall v :: 0 <= v < |succ| && s0.discovery[v] != 0 ==> s.discovery[v] != 0) &&
    s0.components <= s.components
  }

  /** The loop invariant of iterativeDFS. */
  ghost predicate DfsLoop(succ: seq<seq<nat>>, s0: State, start: nat, s: State, path: seq<nat>, its: seq<nat>)
  {
    (path != [] ==> Dfs(succ, s, path, its)) &&
    (path == [] ==> Valid(succ, s) && s.tarjanStack == []) &&
    Kept(succ, s0, start, s)
  }

  /** Discovering the start vertex sets up the DFS invariant. */
  lemma StartStep(succ: seq<seq<nat>>, s0: State, start: nat)
    requires Valid(succ, s0) && s0.tarjanStack == [] && start < |succ| && s0.discovery[start] == 0
    ensures DfsLoop(succ, s0, start, Discover(s0, start), [start], [0])
  {
    var r := Discover(s0, start);
    DiscoverValid(succ, s0, start);
    assert r.tarjanStack == [start];
  }

  /** The loop's branch for an undiscovered successor. */
  lemma LoopDiscover(succ: seq<seq<nat>>, s0: State, start: nat, s: State, path: seq<nat>, its: seq<nat>, w: nat)
    requires DfsLoop(succ, s0, start, s, path, its) && path != []
    requires its[|its| - 1] < |succ[path[|path| - 1]]| && w == succ[path[|path| - 1]][its[|its| - 1]]
    requires s.discovery[w] == 0
    ensures DfsLoop(succ, s0, start, Discover(s, w), path + [w], its[|its| - 1 := its[|its| - 1] + 1] + [0])
    ensures Undiscovered(Discover(s, w).discovery) < Undiscovered(s.discovery)
  {
    DiscoverStep(succ, s, path, its, w);
  }

  /** The loop's branch for a successor on the Tarjan stack. */
  lemma LoopBackEdge(succ: seq<seq<nat>>, s0: State, start: nat, s: State, path: seq<nat>, its: seq<nat>, w: nat)
    requires DfsLoop(succ, s0, start, s, path, its) && path != []
    requires its[|its| - 1] < |succ[path[|path| - 1]]| && w == succ[path[|path| - 1]][its[|its| - 1]]
    requires s.discovery[w] != 0 && s.onStack[w]
    ensures DfsLoop(succ, s0, start, LowerTop(s, path[|path| - 1], s.discovery[w]), path,
                    its[|its| - 1 := its[|its| - 1] + 1])
    ensures LowerTop(s, path[|path| - 1], s.discovery[w]).discovery == s.discovery
    ensures Remaining(succ, path, its[|its| - 1 := its[|its| - 1] + 1]) < Remaining(succ, path, its)
  {
    BackEdgeStep(succ, s, path, its, w);
    RemainingAdvance(succ, path, its);
  }

  /** The loop's branch for a successor already in a component. */
  lemma LoopCrossEdge(succ: seq<seq<nat>>, s0: State, start: nat, s: State, path: seq<nat>, its: seq<nat>, w: nat)
    requires DfsLoop(succ, s0, start, s, path, its) && path != []
    requires its[|its| - 1] < |succ[path[|path| - 1]]| && w == succ[path[|path| - 1]][its[|its| - 1]]
    requires s.discovery[w] != 0 && !s.onStack[w]
    ensures DfsLoop(succ, s0, start, s, path, its[|its| - 1 := its[|its| - 1] + 1])
    ensures Remaining(succ, path, its[|its| - 1 := its[|its| - 1] + 1]) < Remaining(succ, path, its)
  {
    CrossEdgeStep(succ, s, path, its, w);
    RemainingAdvance(succ, path, its);
  }

  /** The state after backtracking from the top of the path, once any component has been popped. */
  function Backtracked(s: State, path: seq<nat>): State
    requires |path| > 0 && (forall i :: 0 <= i < |path| ==> path[i] < |s.lowLink|)
  {
    if |path| == 1 then s else Parent(s, path[|path| - 2], path[|path| - 1])
  }

  /** The loop's branch for a root: pop its component, then return to the parent. */
  lemma LoopRoot(succ: seq<seq<nat>>, s0: State, start: nat, s: State, path: seq<nat>, its: seq<nat>, pos: nat)
    requires DfsLoop(succ, s0, start, s, path, its) && path != []
    requires its[|its| - 1] == |succ[path[|path| - 1]]|
    requires s.lowLink[path[|path| - 1]] == s.discovery[path[|path| - 1]]
    requires pos < |s.tarjanStack| && s.tarjanStack[pos] == path[|path| - 1]
    ensures forall i :: 0 <= i < |path| ==> path[i] < |Popped(s, pos).lowLink|
    ensures DfsLoop(succ, s0, start, Backtracked(Popped(s, pos), path), path[..|path| - 1], its[..|its| - 1])
    ensures Backtracked(Popped(s, pos), path).discovery == s.discovery
    ensures Remaining(succ, path[..|path| - 1], its[..|its| - 1]) < Remaining(succ, path, its)
  {
    RemainingPop(succ, path, its);
    if |path| == 1 {
      RootValid(succ, s, path, its, pos);
    } else {
      RootParent(succ, s, path, its, pos);
    }
    ComponentsGrow(s, pos);
  }

  /** Popping a component appends it and keeps every discovery number. */
  lemma ComponentsGrow(s: State, pos: nat)
    requires pos <= |s.tarjanStack|
    requires forall i :: 0 <= i < |s.tarjanStack| ==> s.tarjanStack[i] < |s.onStack| && s.tarjanStack[i] < |s.vertexMapping|
    ensures s.components <= Popped(s, pos).components && Popped(s, pos).discovery == s.discovery
  {
  }

  /** The loop's branch for a vertex that is not a root: return to the parent. */
  lemma LoopNonRoot(succ: seq<seq<nat>>, s0: State, start: nat, s: State, path: seq<nat>, its: seq<nat>)
    requires DfsLoop(succ, s0, start, s, path, its) && path != []
    requires its[|its| - 1] == |succ[path[|path| - 1]]|
    requires s.lowLink[path[|path| - 1]] != s.discovery[path[|path| - 1]]
    ensures |path| > 1
    ensures DfsLoop(succ, s0, start, Parent(s, path[|path| - 2], path[|path| - 1]), path[..|path| - 1], its[..|its| - 1])
    ensures Parent(s, path[|path| - 2], path[|path| - 1]).discovery == s.discovery
    ensures Remaining(succ, path[..|path| - 1], its[..|its| - 1]) < Remaining(succ, path, its)
  {
    RemainingPop(succ, path, its);
    NonRootStep(succ, s, path, its);
  }

  /** `s` is `s0` with the top of its Tarjan stack, above position `|s.tarjanStack|`, popped into `component`. */
  ghost predicate PoppedTo(succ: seq<seq<nat>>, s0: State, s: State, c: nat, component: seq<nat>)
  {
    |s.tarjanStack| <= |s0.tarjanStack| && s.tarjanStack == s0.tarjanStack[..|s.tarjanStack|] &&
    s.discovery == s0.discovery && s.lowLink == s0.lowLink && s.components == s0.components &&
    s.currentIndex == s0.currentIndex &&
    |s.onStack| == |succ| && |s.vertexMapping| == |succ| && |s0.onStack| == |succ| && |s0.vertexMapping| == |succ| &&
    (forall x :: 0 <= x < |succ| ==>
       (s.onStack[x] <==> s0.onStack[x] && x !in s0.tarjanStack[|s.tarjanStack|..])) &&
    (forall x :: 0 <= x < |succ| ==>
       s.vertexMapping[x] == if x in s0.tarjanStack[|s.tarjanStack|..] then c else s0.vertexMapping[x]) &&
    component == Reversed(s0.tarjanStack[|s.tarjanStack|..])
  }

  /** One round of the do-while keeps `PoppedTo`. */
  lemma PopStep(succ: seq<seq<nat>>, s0: State, s: State, c: nat, component: seq<nat>)
    requires PoppedTo(succ, s0, s, c, component) && |s.tarjanStack| > 0
    requires s.tarjanStack[|s.tarjanStack| - 1] < |succ|
    ensures PoppedTo(succ, s0, PopOne(s, c), c, component + [s.tarjanStack[|s.tarjanStack| - 1]])
  {
    var j := |s.tarjanStack|;
    assert s0.tarjanStack[j - 1..] == [s.tarjanStack[j - 1]] + s0.tarjanStack[j..];
  }

  /** Popping down to `pos` reaches `Popped`. */
  lemma PopDone(succ: seq<seq<nat>>, s0: State, s: State, pos: nat, component: seq<nat>)
    requires pos < |s0.tarjanStack| && (forall i :: 0 <= i < |s0.tarjanStack| ==> s0.tarjanStack[i] < |succ|)
    requires PoppedTo(succ, s0, s, |s0.components|, component) && |s.tarjanStack| == pos
    ensures s.(components := s.components + [component]) == Popped(s0, pos)
  {
    var r := PopFrom(s0, pos, |s0.components|);
    assert s.onStack == r.onStack && s.vertexMapping == r.vertexMapping;
  }


}
