/**
  The building blocks of the subset construction: the epsilon closure of a
  node, the move of a set of nodes over one symbol, and the name a set of
  nodes gets. Node objects are identified with their names, which the node
  map keys them by; looking up a name the map lacks raises `KeyError`.
*/
module SubsetConstruction {
  import opened Wrappers
  import opened Names
  import opened Automata

  /** The epsilon targets of node `q` in list order; none when it has no epsilon entry. */
  function EpsilonTargets(m: map<StateName, Node>, q: StateName): seq<StateName>
    requires q in m
  {
    if EPSILON in m[q].transitions then m[q].transitions[EPSILON] else []
  }

  /** Every epsilon target of a node of `c` is in `c`. */
  ghost predicate EpsilonClosed(m: map<StateName, Node>, c: set<StateName>)
  {
    forall q, t :: q in c && q in m && t in EpsilonTargets(m, q) ==> t in c
  }

  /**
    `r` is the epsilon closure of `q`: it holds `q`, it is closed under
    epsilon transitions, and it lies inside every such set.
  */
  ghost predicate IsEpsilonClosure(m: map<StateName, Node>, q: StateName, r: set<StateName>)
  {
    && q in r
    && EpsilonClosed(m, r)
    && forall c :: q in c && EpsilonClosed(m, c) ==> r <= c
  }

  /** Every epsilon target of a node of `reach`, other than `q`, is in `dest` and has a node. */
  ghost predicate TargetsVisited(m: map<StateName, Node>, reach: set<StateName>, q: StateName, dest: set<StateName>)
  {
    forall s, t :: s in reach && s in m && s != q && t in EpsilonTargets(m, s) ==> t in dest && t in m
  }

  /** `reach` lies inside every epsilon-closed set that holds `q`. */
  ghost predicate InsideClosedSets(m: map<StateName, Node>, q: StateName, reach: set<StateName>)
  {
    forall c :: q in c && EpsilonClosed(m, c) ==> reach <= c
  }

  /**
    What one successful `EpsilonClosure` call delivers: `reach` holds `q`
    and only named nodes, was added to the visited set and was disjoint
    from it apart from `q`, every epsilon target of its nodes has a node
    and is now visited, and `reach` lies in every epsilon-closed set
    holding `q`.
  */
  ghost predicate ClosureFound(m: map<StateName, Node>, q: StateName, visited: set<StateName>,
                               reach: set<StateName>, visitedAfter: set<StateName>)
  {
    && q in reach && reach <= m.Keys
    && visitedAfter == visited + reach
    && (forall s :: s in reach && s in visited ==> s == q)
    && (forall s, t :: s in reach && s in m && t in EpsilonTargets(m, s) ==> t in visitedAfter && t in m)
    && InsideClosedSets(m, q, reach)
  }

  /** Some node that every epsilon-closed set holding `q` holds has an epsilon target without a node. */
  ghost predicate ForcedDangling(m: map<StateName, Node>, q: StateName)
  {
    exists s, t :: s in m && InsideClosedSets(m, q, {s}) && t in EpsilonTargets(m, s) && t !in m
  }

  /** Some node reached from `q` along epsilon paths has an epsilon target without a node. */
  ghost predicate DanglingEpsilon(m: map<StateName, Node>, q: StateName)
  {
    exists s, t :: EpsilonReaches(m, q, s) && s in m && t in EpsilonTargets(m, s) && t !in m
  }

  /**
    `epsilonClosure(state, visitedStates, nfa)`: the node itself and,
    through each epsilon target not yet visited, that target's closure.
    The shared `visitedStates` set is passed in and handed back. Each
    target is looked up in the node map before the visited test, so a
    target without a node raises `KeyError`; from an empty visited set
    that happens exactly when some node the closure reaches has such a
    target.
  */
  method EpsilonClosure(q: StateName, visited: set<StateName>, m: map<StateName, Node>)
      returns (res: Result<set<StateName>, Raised>, visitedAfter: set<StateName>)
    requires q in m
    ensures res.Ok? ==> ClosureFound(m, q, visited, res.value, visitedAfter)
    ensures res.Err? ==> res.error == KeyError && ForcedDangling(m, q)
    ensures visited == {} ==> (res.Err? <==> DanglingEpsilon(m, q))
    ensures visited == {} && res.Ok? ==> res.value == visitedAfter && IsEpsilonClosure(m, q, res.value)
    decreases m.Keys - visited, if q in visited then 1 else 0
  {
    var reach := {q};
    visitedAfter := visited + {q};
    if EPSILON in m[q].transitions {
      var targets := m[q].transitions[EPSILON];
      var i := 0;
      while i < |targets|
        invariant i <= |targets| == |EpsilonTargets(m, q)|
        invariant ClosureSoFar(m, q, visited, i, reach, visitedAfter)
      {
        var next := targets[i];
        if next !in m {
          DanglingAtStart(m, q, next);
          return Err(KeyError), visitedAfter;
        }
        if next !in visitedAfter {
          var sub, v := EpsilonClosure(next, visitedAfter, m);
          if sub.Err? {
            DanglingThrough(m, q, next);
            return sub, v;
          }
          ClosureStep(m, q, visited, i, reach, visitedAfter, sub.value, v);
          reach := reach + sub.value;
          visitedAfter := v;
        }
        i := i + 1;
      }
    }
    ClosureDone(m, q, visited, reach, visitedAfter);
    res := Ok(reach);
  }

  /**
    The state of `EpsilonClosure` after its first `i` epsilon targets:
    `ClosureFound` for every node but `q`, whose first `i` targets have
    nodes and are visited.
  */
  ghost predicate ClosureSoFar(m: map<StateName, Node>, q: StateName, visited: set<StateName>, i: nat,
                               reach: set<StateName>, visitedAfter: set<StateName>)
    requires q in m && i <= |EpsilonTargets(m, q)|
  {
    && q in reach && reach <= m.Keys
    && visitedAfter == visited + reach
    && (forall s :: s in reach && s in visited ==> s == q)
    && (forall k :: 0 <= k < i ==> EpsilonTargets(m, q)[k] in visitedAfter && EpsilonTargets(m, q)[k] in m)
    && TargetsVisited(m, reach, q, visitedAfter)
    && InsideClosedSets(m, q, reach)
  }

  /** One recursive call on the `i`th epsilon target, not yet visited, keeps `ClosureSoFar`. */
  lemma ClosureStep(m: map<StateName, Node>, q: StateName, visited: set<StateName>, i: nat,
                    reach: set<StateName>, visitedAfter: set<StateName>, r: set<StateName>, v: set<StateName>)
    requires q in m && i < |EpsilonTargets(m, q)| && ClosureSoFar(m, q, visited, i, reach, visitedAfter)
    requires EpsilonTargets(m, q)[i] !in visitedAfter
    requires ClosureFound(m, EpsilonTargets(m, q)[i], visitedAfter, r, v)
    ensures ClosureSoFar(m, q, visited, i + 1, reach + r, v)
  {
    var next := EpsilonTargets(m, q)[i];
    assert next in EpsilonTargets(m, q);
    forall c | q in c && EpsilonClosed(m, c) ensures reach + r <= c {
      assert next in c;
    }
  }

  /** After all epsilon targets `ClosureSoFar` is `ClosureFound`, and from an empty visited set the closure. */
  lemma ClosureDone(m: map<StateName, Node>, q: StateName, visited: set<StateName>,
                    reach: set<StateName>, visitedAfter: set<StateName>)
    requires q in m && ClosureSoFar(m, q, visited, |EpsilonTargets(m, q)|, reach, visitedAfter)
    ensures ClosureFound(m, q, visited, reach, visitedAfter)
    ensures visited == {} ==> reach == visitedAfter && IsEpsilonClosure(m, q, reach) && !DanglingEpsilon(m, q)
  {
    assert forall t :: t in EpsilonTargets(m, q) ==> t in visitedAfter && t in m;
    if visited == {} {
      ClosureNoDangling(m, q, reach);
    }
  }

  /** An epsilon target of `q` without a node makes `q` dangle. */
  lemma DanglingAtStart(m: map<StateName, Node>, q: StateName, next: StateName)
    requires q in m && next in EpsilonTargets(m, q) && next !in m
    ensures ForcedDangling(m, q) && DanglingEpsilon(m, q)
  {
    assert InsideClosedSets(m, q, {q});
    ForcedDangles(m, q, q, next);
  }

  /** What dangles from an epsilon target of `q` dangles from `q`. */
  lemma DanglingThrough(m: map<StateName, Node>, q: StateName, next: StateName)
    requires q in m && next in EpsilonTargets(m, q) && ForcedDangling(m, next)
    ensures ForcedDangling(m, q) && DanglingEpsilon(m, q)
  {
    var s, t :| s in m && InsideClosedSets(m, next, {s}) && t in EpsilonTargets(m, s) && t !in m;
    forall c | q in c && EpsilonClosed(m, c) ensures {s} <= c {
      assert next in c;
    }
    ForcedDangles(m, q, s, t);
  }

  /** A node forced into every epsilon-closed set holding `q`, with a target that has no node, makes `q` dangle. */
  lemma ForcedDangles(m: map<StateName, Node>, q: StateName, s: StateName, t: StateName)
    requires q in m && s in m && InsideClosedSets(m, q, {s}) && t in EpsilonTargets(m, s) && t !in m
    ensures ForcedDangling(m, q) && DanglingEpsilon(m, q)
  {
    ReachedAroundFacts(m, q);
    assert s in ReachedAround(m, q);
  }

  /** A closure whose nodes' epsilon targets all have nodes leaves nothing dangling. */
  lemma ClosureNoDangling(m: map<StateName, Node>, q: StateName, reach: set<StateName>)
    requires IsEpsilonClosure(m, q, reach)
    requires forall s, t :: s in reach && s in m && t in EpsilonTargets(m, s) ==> t in m
    ensures !DanglingEpsilon(m, q)
  {
    if DanglingEpsilon(m, q) {
      var s, t :| EpsilonReaches(m, q, s) && s in m && t in EpsilonTargets(m, s) && t !in m;
      var path :| |path| > 0 && path[0] == q && path[|path| - 1] == s && EpsilonPath(m, path);
      PathStaysInClosed(m, reach, path);
      assert false;
    }
  }

  /** Two epsilon closures of the same node are equal. */
  lemma EpsilonClosureUnique(m: map<StateName, Node>, q: StateName, r1: set<StateName>, r2: set<StateName>)
    requires IsEpsilonClosure(m, q, r1) && IsEpsilonClosure(m, q, r2)
    ensures r1 == r2
  {
  }

  /** `path` follows epsilon transitions from node to node. */
  ghost predicate EpsilonPath(m: map<StateName, Node>, path: seq<StateName>)
  {
    forall k :: 0 <= k < |path| - 1 ==> path[k] in m && path[k + 1] in EpsilonTargets(m, path[k])
  }

  /** Some epsilon path leads from `q` to `t` (the empty path when they are equal). */
  ghost predicate EpsilonReaches(m: map<StateName, Node>, q: StateName, t: StateName)
  {
    exists path :: |path| > 0 && path[0] == q && path[|path| - 1] == t && EpsilonPath(m, path)
  }

  /** The epsilon closure holds exactly the nodes reachable from `q` along epsilon paths. */
  lemma EpsilonClosureIsReachable(m: map<StateName, Node>, q: StateName, r: set<StateName>, t: StateName)
    requires q in m && IsEpsilonClosure(m, q, r)
    ensures t in r <==> EpsilonReaches(m, q, t)
  {
    if EpsilonReaches(m, q, t) {
      var path :| |path| > 0 && path[0] == q && path[|path| - 1] == t && EpsilonPath(m, path);
      PathStaysInClosed(m, r, path);
    }
    ReachedAroundFacts(m, q);
  }

  /** One more epsilon step from a reached node reaches its target. */
  lemma ReachesStep(m: map<StateName, Node>, q: StateName, s: StateName, u: StateName)
    requires EpsilonReaches(m, q, s) && s in m && u in EpsilonTargets(m, s)
    ensures EpsilonReaches(m, q, u)
  {
    var path :| |path| > 0 && path[0] == q && path[|path| - 1] == s && EpsilonPath(m, path);
    var longer := path + [u];
    assert EpsilonPath(m, longer) by {
      forall k | 0 <= k < |longer| - 1
        ensures longer[k] in m && longer[k + 1] in EpsilonTargets(m, longer[k])
      {
        if k < |path| - 1 {
          assert longer[k] == path[k] && longer[k + 1] == path[k + 1];
        }
      }
    }
    assert longer[|longer| - 1] == u && longer[0] == q;
  }

  /** The nodes reached from `q` along epsilon paths, and their epsilon targets. */
  ghost function ReachedAround(m: map<StateName, Node>, q: StateName): set<StateName>
  {
    var inside := set s | s in m && EpsilonReaches(m, q, s);
    inside + set s, t | s in inside && t in EpsilonTargets(m, s) :: t
  }

  /** `ReachedAround` holds `q`, is epsilon-closed and holds only reached names. */
  lemma ReachedAroundFacts(m: map<StateName, Node>, q: StateName)
    requires q in m
    ensures q in ReachedAround(m, q) && EpsilonClosed(m, ReachedAround(m, q))
    ensures forall s :: s in ReachedAround(m, q) ==> EpsilonReaches(m, q, s)
  {
    var c := ReachedAround(m, q);
    assert EpsilonPath(m, [q]);
    forall s | s in c ensures EpsilonReaches(m, q, s) {
      if !EpsilonReaches(m, q, s) {
        var s0 :| s0 in m && EpsilonReaches(m, q, s0) && s in EpsilonTargets(m, s0);
        ReachesStep(m, q, s0, s);
      }
    }
    forall s, u | s in c && s in m && u in EpsilonTargets(m, s) ensures u in c {
      assert EpsilonReaches(m, q, s);
    }
  }

  /** A path that starts in an epsilon-closed set stays inside it. */
  lemma {:induction false} PathStaysInClosed(m: map<StateName, Node>, c: set<StateName>, path: seq<StateName>)
    requires EpsilonClosed(m, c) && EpsilonPath(m, path) && |path| > 0 && path[0] in c
    ensures path[|path| - 1] in c
  {
    if |path| > 1 {
      assert path[1] in EpsilonTargets(m, path[0]);
      var rest := path[1..];
      assert EpsilonPath(m, rest) by {
        forall k | 0 <= k < |rest| - 1 ensures rest[k] in m && rest[k + 1] in EpsilonTargets(m, rest[k]) {
          assert rest[k] == path[k + 1] && rest[k + 1] == path[k + 2];
        }
      }
      PathStaysInClosed(m, c, rest);
    }
  }

  /** The targets on `symbol` of the nodes of `states`. */
  function Moved(m: map<StateName, Node>, states: set<StateName>, symbol: Symbol): set<StateName>
    requires states <= m.Keys
  {
    set q, t | q in states && symbol in m[q].transitions && t in m[q].transitions[symbol] :: t
  }

  /**
    `move(states, symbol, nfa)`: the union, over the given nodes, of their
    targets on `symbol`, each looked up in the node map; a target without
    a node raises `KeyError`.
  */
  method Move(states: set<StateName>, symbol: Symbol, m: map<StateName, Node>) returns (res: Result<set<StateName>, Raised>)
    requires states <= m.Keys
    ensures res.Err? <==> !(Moved(m, states, symbol) <= m.Keys)
    ensures res.Err? ==> res.error == KeyError
    ensures res.Ok? ==> res.value == Moved(m, states, symbol)
  {
    var reach := {};
    var rest := states;
    while rest != {}
      invariant rest <= states
      invariant reach == Moved(m, states - rest, symbol) && reach <= m.Keys
      decreases rest
    {
      var q :| q in rest;
      if symbol in m[q].transitions {
        var found := Elements(m[q].transitions[symbol]);
        if !(found <= m.Keys) {
          ghost var t :| t in found && t !in m;
          assert t in Moved(m, states, symbol);
          return Err(KeyError);
        }
        reach := reach + found;
      }
      rest := rest - {q};
      assert states - rest == (states - (rest + {q})) + {q};
    }
    assert states - rest == states;
    res := Ok(reach);
  }

  /** A target is moved to exactly when some given node lists it under `symbol`. */
  lemma MovedMember(m: map<StateName, Node>, states: set<StateName>, symbol: Symbol, t: StateName)
    requires states <= m.Keys
    ensures t in Moved(m, states, symbol) <==>
      exists q :: q in states && symbol in m[q].transitions && t in m[q].transitions[symbol]
  {
  }

  /** Nothing is reached from no nodes. */
  lemma MovedEmpty(m: map<StateName, Node>, symbol: Symbol)
    ensures Moved(m, {}, symbol) == {}
  {
  }

  /** Moving more nodes reaches at least as many targets. */
  lemma MovedMonotone(m: map<StateName, Node>, small: set<StateName>, large: set<StateName>, symbol: Symbol)
    requires small <= large <= m.Keys
    ensures Moved(m, small, symbol) <= Moved(m, large, symbol)
  {
  }

  /** Moving a union of node sets is the union of the moves. */
  lemma MovedUnion(m: map<StateName, Node>, s1: set<StateName>, s2: set<StateName>, symbol: Symbol)
    requires s1 <= m.Keys && s2 <= m.Keys
    ensures Moved(m, s1 + s2, symbol) == Moved(m, s1, symbol) + Moved(m, s2, symbol)
  {
  }

  /** `sep.join(xs)`. */
  function JoinWith(sep: string, xs: seq<string>): string
  {
    if xs == [] then "" else if |xs| == 1 then xs[0] else xs[0] + sep + JoinWith(sep, xs[1..])
  }

  /** Python 2's `str` of a list whose elements render as the strings `xs`. */
  function ListString(xs: seq<string>): string
  {
    "[" + JoinWith(", ", xs) + "]"
  }

  /** `s.replace(' ', '')`. */
  function WithoutSpaces(s: string): (r: string)
    ensures ' ' !in r
  {
    if s == [] then [] else (if s[0] == ' ' then [] else [s[0]]) + WithoutSpaces(s[1..])
  }

  /** `(s[1:])[:-1]`, with Python's slicing of short strings. */
  function Inner(s: string): string
  {
    var t := if |s| >= 1 then s[1..] else [];
    if |t| >= 1 then t[..|t| - 1] else t
  }

  /** The renderings of `xs`, one per element, in order. */
  function Rendered(show: StateName -> string, xs: seq<StateName>): (r: seq<string>)
    ensures |r| == |xs| && forall k :: 0 <= k < |xs| ==> r[k] == show(xs[k])
  {
    if xs == [] then [] else [show(xs[0])] + Rendered(show, xs[1..])
  }

  /**
    `stateSetName(states)`, given `listing == list(states)`: the list
    sorted, rendered by `show`, printed as a Python list, spaces removed,
    outer brackets cut off.
  */
  function StateSetName(listing: seq<StateName>, show: StateName -> string): string
  {
    Inner(WithoutSpaces(ListString(Rendered(show, Sort(listing)))))
  }

  /**
    The name is the sorted renderings, each with its spaces removed, joined
    by commas; it holds no space and no brackets the printing added.
  */
  lemma StateSetNameJoins(listing: seq<StateName>, show: StateName -> string)
    ensures StateSetName(listing, show) ==
      JoinWith(",", Rendered(s => WithoutSpaces(show(s)), Sort(listing)))
    ensures ' ' !in StateSetName(listing, show)
  {
    var xs := Rendered(show, Sort(listing));
    var j := JoinWith(", ", xs);
    WithoutSpacesAppend("[" + j, "]");
    WithoutSpacesAppend("[", j);
    WithoutSpacesJoin(show, Sort(listing));
    var inner := WithoutSpaces(j);
    assert WithoutSpaces(ListString(xs)) == "[" + inner + "]";
    InnerOfBracketed(inner);
    SliceHasNoSpaces(WithoutSpaces(ListString(xs)));
  }

  lemma InnerOfBracketed(s: string)
    ensures Inner("[" + s + "]") == s
  {
    var t := ("[" + s + "]")[1..];
    assert t == s + "]";
  }

  /** No slice of a space-free string has a space. */
  lemma SliceHasNoSpaces(s: string)
    requires ' ' !in s
    ensures ' ' !in Inner(s)
  {
    var t := if |s| >= 1 then s[1..] else [];
    assert forall k :: 0 <= k < |t| ==> t[k] == s[k + 1];
  }

  lemma {:induction false} WithoutSpacesAppend(a: string, b: string)
    ensures WithoutSpaces(a + b) == WithoutSpaces(a) + WithoutSpaces(b)
  {
    if a != [] {
      assert (a + b)[1..] == a[1..] + b;
      WithoutSpacesAppend(a[1..], b);
    } else {
      assert a + b == b;
    }
  }

  /** Removing spaces from a `", "`-joined list joins the space-free renderings by commas. */
  lemma {:induction false} WithoutSpacesJoin(show: StateName -> string, xs: seq<StateName>)
    ensures WithoutSpaces(JoinWith(", ", Rendered(show, xs))) ==
      JoinWith(",", Rendered(s => WithoutSpaces(show(s)), xs))
  {
    var f := s => WithoutSpaces(show(s));
    if |xs| > 1 {
      var r := Rendered(show, xs);
      assert r[1..] == Rendered(show, xs[1..]);
      assert Rendered(f, xs)[1..] == Rendered(f, xs[1..]);
      WithoutSpacesJoin(show, xs[1..]);
      var rest := JoinWith(", ", r[1..]);
      WithoutSpacesAppend(r[0] + ", ", rest);
      WithoutSpacesAppend(r[0], ", ");
      assert WithoutSpaces(", ") == ",";
    }
  }

  /** Any two listings of the same set of nodes get the same name. */
  lemma StateSetNameOrderIndependent(xs: seq<StateName>, ys: seq<StateName>, show: StateName -> string)
    requires NoDuplicates(xs) && NoDuplicates(ys) && Elements(xs) == Elements(ys)
    ensures StateSetName(xs, show) == StateSetName(ys, show)
  {
    SortNoDuplicates(xs);
    SortNoDuplicates(ys);
    StrictlySortedUnique(Sort(xs), Sort(ys));
  }
}
