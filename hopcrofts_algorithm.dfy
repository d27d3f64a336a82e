/**
  Partition refinement after Hopcroft, as `hopcroftMinimize` writes it:
  the states are split into accepting and non-accepting classes, popped
  classes are split on a symbol whose successors disagree, and each final
  class of more than one state is collapsed onto one representative.
*/
module HopcroftsAlgorithm {
  import opened Wrappers
  import opened Names
  import opened Automata

  /** A list of classes of states, as the lists `P` and `W` hold them. */
  type Classes = seq<set<StateName>>

  // ---------------------------------------------------------------------
  // Classes
  // ---------------------------------------------------------------------

  /** No two positions of `P` share a state. */
  ghost predicate Disjoint(P: Classes)
  {
    forall i, j :: 0 <= i < j < |P| ==> P[i] * P[j] == {}
  }

  /** `q` lies in some class of `P`. */
  ghost predicate InSomeClass(P: Classes, q: StateName)
  {
    exists i :: 0 <= i < |P| && q in P[i]
  }

  /** `P` splits the set `U` into disjoint classes. */
  ghost predicate Partitions(P: Classes, U: set<StateName>)
  {
    Disjoint(P) && forall q :: q in U <==> InSomeClass(P, q)
  }

  /** No class of `P` mixes states of `S` with states outside it. */
  ghost predicate Separates(P: Classes, S: set<StateName>)
  {
    forall i :: 0 <= i < |P| ==> P[i] <= S || P[i] * S == {}
  }

  /** The states the classes start from: the node names and the accept names (line 6). */
  function DfaStates(a: Dfa): set<StateName>
  {
    Elements(a.states) + Elements(a.accepts)
  }

  // ---------------------------------------------------------------------
  // The split test (lines 16-25)
  // ---------------------------------------------------------------------

  /**
    The state `to_state` of lines 18-20: the first target of `q` on `c`,
    or `None` when `q` has no node or its node no entry for `c`.
  */
  function Successor(a: Dfa, q: StateName, c: Symbol): Option<StateName>
  {
    if q in a.states && TargetsIn(a.transitions, q, c) != [] then Some(TargetsIn(a.transitions, q, c)[0]) else None
  }

  /**
    `q` joins the list `X` whose first member is `first` (lines 21-25):
    it is `first`, or both have a successor on `c` and the two successors
    lie in one class. A state without a successor never joins.
  */
  ghost predicate Joins(a: Dfa, P: Classes, c: Symbol, first: StateName, q: StateName)
  {
    q == first ||
    (Successor(a, q, c).Some? && Successor(a, first, c).Some? &&
     exists i :: 0 <= i < |P| && Successor(a, q, c).value in P[i] && Successor(a, first, c).value in P[i])
  }

  /**
    The lookup `x_to_state[0]` of line 25 meets `None`: some state besides
    `first` has a successor in a class while `first` has none.
  */
  ghost predicate Clash(a: Dfa, P: Classes, c: Symbol, first: StateName, q: StateName)
  {
    q != first && Successor(a, first, c).None? && Successor(a, q, c).Some? && InSomeClass(P, Successor(a, q, c).value)
  }

  /**
    Lines 24-25 for one state `from` with successor `to`: the loop over the
    classes appends `from` once for every class holding both `to` and the
    successor of `X[0]`, and raises `TypeError` at the first class holding
    `to` when `X[0]` has no entry.
  */
  method CompareInClasses(a: Dfa, P: Classes, c: Symbol, first: StateName, from: StateName,
                          to: Option<StateName>, X0: seq<StateName>)
    returns (raised: Option<Raised>, X: seq<StateName>)
    requires Disjoint(P) && from in a.states && first in a.states && from != first
    requires to == Successor(a, from, c)
    ensures raised == None ==> X == X0 + (if Joins(a, P, c, first, from) then [from] else [])
    ensures raised == None ==> !Clash(a, P, c, first, from)
    ensures raised != None ==> raised == Some(TypeError) && Clash(a, P, c, first, from)
  {
    var xToState := Step(a, first, c);
    StepTargets(a, first, c);
    raised, X := None, X0;
    for i := 0 to |P|
      invariant xToState.None? ==> forall j :: 0 <= j < i ==> !(to.Some? && to.value in P[j])
      invariant X == X0 + (if exists j :: 0 <= j < i && to.Some? && xToState.Some? && to.value in P[j] && xToState.value[0] in P[j]
                           then [from] else [])
    {
      if to.Some? && to.value in P[i] {
        if xToState == None {
          return Some(TypeError), X;
        }
        if xToState.value[0] in P[i] {
          SingleClass(P, to.value, i);
          X := X + [from];
        }
      }
    }
  }

  /** A state lies in at most one class of a disjoint list. */
  lemma {:induction false} SingleClass(P: Classes, q: StateName, i: nat)
    requires Disjoint(P) && i < |P| && q in P[i]
    ensures forall j :: 0 <= j < |P| && j != i ==> q !in P[j]
  {
    forall j | 0 <= j < |P| && j != i ensures q !in P[j] {
      if j < i {
        assert q !in P[j] * P[i];
      } else {
        assert q !in P[i] * P[j];
      }
    }
  }

  /**
    The list `X` after the members `seen` of `A` are visited: each visited
    member has a node, appears once, and appears exactly when it joins
    `X[0]`, and no visited member clashes with `X[0]`.
  */
  ghost predicate Scanned(a: Dfa, P: Classes, c: Symbol, seen: set<StateName>, X: seq<StateName>)
  {
    && seen <= Elements(a.states)
    && NoDuplicates(X) && Elements(X) <= seen && (X == [] <==> seen == {})
    && (X != [] ==> X[0] in seen && forall q :: q in seen ==> (q in X <==> Joins(a, P, c, X[0], q)) && !Clash(a, P, c, X[0], q))
  }

  /** The first member visited starts `X` (line 21). */
  lemma {:induction false} ScanFirst(a: Dfa, P: Classes, c: Symbol, from: StateName)
    requires from in a.states
    ensures Scanned(a, P, c, {from}, [from])
  {
    assert Elements([from]) == {from};
  }

  /** A later member is appended exactly when it joins `X[0]` (lines 22-25). */
  lemma {:induction false} ScanNext(a: Dfa, P: Classes, c: Symbol, seen: set<StateName>, X0: seq<StateName>,
                                    from: StateName, X: seq<StateName>)
    requires Scanned(a, P, c, seen, X0) && X0 != [] && from !in seen && from in a.states
    requires X == X0 + (if Joins(a, P, c, X0[0], from) then [from] else []) && !Clash(a, P, c, X0[0], from)
    ensures Scanned(a, P, c, seen + {from}, X)
  {
    AppendIfAbsent(X0, from);
    assert X[0] == X0[0];
  }

  /** Moving one member from the unvisited to the visited part of `A`. */
  lemma {:induction false} VisitOne(A: set<StateName>, seen: set<StateName>, rest: set<StateName>, x: StateName)
    requires seen * rest == {} && seen + rest == A && x in rest
    ensures (seen + {x}) * (rest - {x}) == {} && (seen + {x}) + (rest - {x}) == A && x !in seen
  {
    assert x !in seen * rest;
    assert (seen + {x}) + (rest - {x}) == seen + rest;
  }

  /**
    Lines 16-25: the list `X` for the class `A` and the symbol `c`. A set
    is iterated in an order the model leaves open, so `X[0]` is whichever
    member comes first. The lookup `dfa.nodes[from_state]` raises
    `KeyError` on a name without a node.
  */
  method Splitter(a: Dfa, P: Classes, A: set<StateName>, c: Symbol) returns (raised: Option<Raised>, X: seq<StateName>)
    requires Disjoint(P)
    ensures raised == None ==> Scanned(a, P, c, A, X)
    ensures raised == Some(KeyError) ==> exists q :: q in A && q !in a.states
    ensures raised == Some(TypeError) ==>
      exists first, q :: first in A && q in A && first in a.states && q in a.states && Clash(a, P, c, first, q)
    ensures raised == None || raised == Some(KeyError) || raised == Some(TypeError)
  {
    raised, X := None, [];
    var rest := A;
    ghost var seen := {};
    while rest != {}
      invariant raised == None && seen * rest == {} && seen + rest == A
      invariant Scanned(a, P, c, seen, X)
      decreases |rest|
    {
      var from :| from in rest;
      VisitOne(A, seen, rest, from);
      rest := rest - {from};
      if from !in a.states {
        return Some(KeyError), X;
      }
      var toState := Step(a, from, c);
      StepTargets(a, from, c);
      var to := if toState.Some? then Some(toState.value[0]) else None;
      if |X| == 0 {
        ScanFirst(a, P, c, from);
        X := X + [from];
      } else {
        ghost var X0 := X;
        raised, X := CompareInClasses(a, P, c, X[0], from, to, X);
        if raised.Some? {
          return;
        }
        ScanNext(a, P, c, seen, X0, from, X);
      }
      seen := seen + {from};
    }
  }

  // ---------------------------------------------------------------------
  // The main loop (lines 6-34)
  // ---------------------------------------------------------------------

  /** Every class waiting in `W` is a non-empty class of `P`, and none waits twice. */
  ghost predicate Pending(W: Classes, P: Classes)
  {
    NoDuplicates(W) && forall k :: 0 <= k < |W| ==> W[k] != {} && W[k] in P
  }

  /** The sum of the squared sizes of the waiting classes: every pass of the main loop lowers it. */
  function Weight(W: Classes): nat
  {
    if W == [] then 0 else |W[0]| * |W[0]| + Weight(W[1..])
  }

  lemma {:induction false} WeightAppend(W: Classes, S: set<StateName>)
    ensures Weight(W + [S]) == Weight(W) + |S| * |S|
    decreases |W|
  {
    if W != [] {
      assert (W + [S])[1..] == W[1..] + [S];
      WeightAppend(W[1..], S);
    }
  }

  /** Splitting a class into two non-empty parts lowers the sum of squared sizes. */
  lemma {:induction false} SplitWeight(A: set<StateName>, X1: set<StateName>)
    requires X1 <= A && X1 != {} && X1 != A
    ensures |X1| * |X1| + |A - X1| * |A - X1| < |A| * |A|
  {
    assert A == X1 + (A - X1) && X1 * (A - X1) == {};
    var m, n := |X1|, |A - X1|;
    assert |A| == m + n;
    assert A - X1 != {};
    assert m >= 1 && n >= 1;
    assert m * n >= 1;
    assert (m + n) * (m + n) == m * m + 2 * (m * n) + n * n;
  }

  /** A class of a partition of `U` lies inside `U`. */
  lemma {:induction false} ClassInside(P: Classes, U: set<StateName>, A: set<StateName>, q: StateName)
    requires Partitions(P, U) && A in P && q in A
    ensures q in U
  {
    var i :| 0 <= i < |P| && P[i] == A;
    assert InSomeClass(P, q);
  }

  /** The first partition `[accepts, states - accepts]` of line 6. */
  lemma {:induction false} InitialPartition(a: Dfa)
    ensures var P := [Elements(a.accepts), Elements(a.states) - Elements(a.accepts)];
      Partitions(P, DfaStates(a)) && Separates(P, Elements(a.accepts))
  {
    var P := [Elements(a.accepts), Elements(a.states) - Elements(a.accepts)];
    forall q ensures q in DfaStates(a) <==> InSomeClass(P, q) {
      if q in Elements(a.accepts) {
        assert q in P[0];
      } else if q in Elements(a.states) {
        assert q in P[1];
      }
    }
  }

  /** The positions of `xs` without its entry `i`. */
  lemma {:induction false} CutIndex<T>(xs: seq<T>, i: nat, u: nat)
    requires i < |xs| && u < |xs| - 1
    ensures (xs[..i] + xs[i + 1..])[u] == xs[if u < i then u else u + 1]
  {
  }

  /** `P` without its entry `i`. */
  ghost function CutOut(P: Classes, i: nat): Classes
    requires i < |P|
  {
    P[..i] + P[i + 1..]
  }

  /** Cutting entry `i` out of a disjoint list leaves a disjoint list of classes that miss `P[i]`. */
  lemma {:induction false} CutDisjoint(P: Classes, i: nat)
    requires Disjoint(P) && i < |P|
    ensures Disjoint(CutOut(P, i))
    ensures forall u :: 0 <= u < |P| - 1 ==> CutOut(P, i)[u] * P[i] == {}
  {
    var Q := CutOut(P, i);
    forall u, v | 0 <= u < v < |Q| ensures Q[u] * Q[v] == {} {
      CutIndex(P, i, u);
      CutIndex(P, i, v);
    }
    forall u | 0 <= u < |Q| ensures Q[u] * P[i] == {} {
      CutIndex(P, i, u);
      if u < i {
        assert P[u] * P[i] == {};
      } else {
        assert P[i] * P[u + 1] == {};
      }
    }
  }

  /** Appending two disjoint classes that miss every class of a disjoint list keeps it disjoint. */
  lemma {:induction false} AppendDisjoint(Q: Classes, X1: set<StateName>, X2: set<StateName>)
    requires Disjoint(Q) && X1 * X2 == {}
    requires forall u :: 0 <= u < |Q| ==> Q[u] * X1 == {} && Q[u] * X2 == {}
    ensures Disjoint(Q + [X1] + [X2])
  {
    var P' := Q + [X1] + [X2];
    forall u, v | 0 <= u < v < |P'| ensures P'[u] * P'[v] == {} {
      if v < |Q| {
        assert P'[u] == Q[u] && P'[v] == Q[v];
      } else if u < |Q| {
        assert P'[u] == Q[u];
      }
    }
  }

  /** Taking a class out of a disjoint list and putting its two parts at the end keeps it disjoint. */
  lemma {:induction false} SplitDisjoint(P: Classes, A: set<StateName>, X1: set<StateName>)
    requires Disjoint(P) && A in P && X1 <= A
    ensures Disjoint(RemoveFirst(P, A) + [X1] + [A - X1])
  {
    var i := IndexOf(P, A);
    RemoveFirstAt(P, A);
    CutDisjoint(P, i);
    var Q := RemoveFirst(P, A);
    forall u | 0 <= u < |Q| ensures Q[u] * X1 == {} && Q[u] * (A - X1) == {} {
      assert Q[u] * A == {};
    }
    AppendDisjoint(Q, X1, A - X1);
  }

  /** The same move keeps every state covered, and no more. */
  lemma {:induction false} SplitInSomeClass(P: Classes, A: set<StateName>, X1: set<StateName>, q: StateName)
    requires A in P && X1 <= A
    ensures InSomeClass(RemoveFirst(P, A) + [X1] + [A - X1], q) <==> InSomeClass(P, q)
  {
    var i := IndexOf(P, A);
    RemoveFirstAt(P, A);
    var Q := RemoveFirst(P, A);
    var P' := Q + [X1] + [A - X1];
    if InSomeClass(P, q) {
      var j :| 0 <= j < |P| && q in P[j];
      if j == i {
        if q in X1 {
          assert P'[|Q|] == X1;
        } else {
          assert P'[|Q| + 1] == A - X1;
        }
      } else {
        var u := if j < i then j else j - 1;
        CutIndex(P, i, u);
        assert P'[u] == P[j];
      }
    }
    if InSomeClass(P', q) {
      var u :| 0 <= u < |P'| && q in P'[u];
      if u < |Q| {
        CutIndex(P, i, u);
        assert q in P[if u < i then u else u + 1];
      } else {
        assert q in P[i];
      }
    }
  }

  /** Splitting a class of a partition gives a partition of the same set, still separating `S`. */
  lemma {:induction false} SplitPartitions(P: Classes, U: set<StateName>, S: set<StateName>, A: set<StateName>, X1: set<StateName>)
    requires Partitions(P, U) && Separates(P, S) && A in P && X1 <= A
    ensures Partitions(RemoveFirst(P, A) + [X1] + [A - X1], U)
    ensures Separates(RemoveFirst(P, A) + [X1] + [A - X1], S)
  {
    SplitDisjoint(P, A, X1);
    forall q ensures q in U <==> InSomeClass(RemoveFirst(P, A) + [X1] + [A - X1], q) {
      SplitInSomeClass(P, A, X1, q);
    }
    var i := IndexOf(P, A);
    RemoveFirstAt(P, A);
    var Q := RemoveFirst(P, A);
    var P' := Q + [X1] + [A - X1];
    forall u | 0 <= u < |P'| ensures P'[u] <= S || P'[u] * S == {} {
      if u < |Q| {
        CutIndex(P, i, u);
        assert P'[u] == P[if u < i then u else u + 1];
      } else {
        assert P'[u] <= A;
      }
    }
  }

  /** A class of a disjoint list other than `A` lies in the list without `A`, apart from `A`. */
  lemma {:induction false} OtherClass(P: Classes, A: set<StateName>, B: set<StateName>)
    requires Disjoint(P) && A in P && B in P && B != A
    ensures B in RemoveFirst(P, A) && B * A == {}
  {
    var i := IndexOf(P, A);
    RemoveFirstAt(P, A);
    var j :| 0 <= j < |P| && P[j] == B;
    var u := if j < i then j else j - 1;
    CutIndex(P, i, u);
    assert RemoveFirst(P, A)[u] == P[j];
    if j < i {
      assert P[j] * P[i] == {};
    } else {
      assert P[i] * P[j] == {};
    }
  }

  /** A non-empty part of `A` is none of the classes that miss `A`. */
  lemma {:induction false} FreshPart(W1: Classes, A: set<StateName>, X: set<StateName>)
    requires X <= A && X != {} && forall k :: 0 <= k < |W1| ==> W1[k] * A == {}
    ensures X !in W1
  {
    var x :| x in X;
    forall k | 0 <= k < |W1| ensures W1[k] != X {
      assert x !in W1[k] * A;
    }
  }

  /**
    After a split the rest of the worklist still waits as classes of the
    new partition, and the two parts are new classes waiting nowhere.
  */
  lemma {:induction false} PendingSplit(P: Classes, W1: Classes, A: set<StateName>, X1: set<StateName>)
    requires Disjoint(P) && A in P && Pending(W1, P) && A !in W1 && X1 <= A && X1 != {} && A - X1 != {}
    ensures var P' := RemoveFirst(P, A) + [X1] + [A - X1];
      Pending(W1, P') && X1 in P' && A - X1 in P' && X1 !in W1 && A - X1 !in W1 && X1 != A - X1
  {
    var Q := RemoveFirst(P, A);
    var P' := Q + [X1] + [A - X1];
    assert P'[|Q|] == X1 && P'[|Q| + 1] == A - X1;
    forall k | 0 <= k < |W1| ensures W1[k] in P' && W1[k] * A == {} {
      OtherClass(P, A, W1[k]);
    }
    FreshPart(W1, A, X1);
    FreshPart(W1, A, A - X1);
    var x :| x in X1;
  }

  /** Pushing a new non-empty class of `P` keeps the worklist waiting. */
  lemma {:induction false} PushOne(W: Classes, P: Classes, X: set<StateName>)
    requires Pending(W, P) && X in P && X != {} && X !in W
    ensures Pending(W + [X], P)
  {
    var W' := W + [X];
    forall k, m | 0 <= k < m < |W'| ensures W'[k] != W'[m] {
      assert W'[k] == W[k];
      if m < |W| {
        assert W'[m] == W[m];
      }
    }
  }

  /** Popping the head of the worklist leaves the rest waiting. */
  lemma {:induction false} PendingTail(W: Classes, P: Classes)
    requires W != [] && Pending(W, P)
    ensures Pending(W[1..], P)
  {
    forall k, m | 0 <= k < m < |W[1..]| ensures W[1..][k] != W[1..][m] {
      assert W[1..][k] == W[k + 1] && W[1..][m] == W[m + 1];
    }
  }

  /** `KeyError` of line 18: a name of the universe without a node. */
  ghost predicate KeyErrorAt(a: Dfa)
  {
    exists q :: q in a.accepts && q !in a.states
  }

  /** `TypeError` of line 25: a state without a successor on `c` compared with one whose successor is classed. */
  ghost predicate TypeErrorAt(a: Dfa)
  {
    exists c, first, q :: c in a.alphabet && first in a.states && q in a.states && first != q &&
      Successor(a, first, c).None? && Successor(a, q, c).Some? && Successor(a, q, c).value in DfaStates(a)
  }

  /** A name of a class without a node is an accept name without a node. */
  lemma {:induction false} KeyErrorIn(a: Dfa, P: Classes, A: set<StateName>)
    requires Partitions(P, DfaStates(a)) && A in P
    requires exists q :: q in A && q !in a.states
    ensures KeyErrorAt(a)
  {
    var q :| q in A && q !in a.states;
    ClassInside(P, DfaStates(a), A, q);
  }

  /** A clash inside a class of the partition is a `TypeError` of the automaton. */
  lemma {:induction false} TypeErrorIn(a: Dfa, P: Classes, A: set<StateName>, c: Symbol)
    requires Partitions(P, DfaStates(a)) && c in a.alphabet
    requires exists first, q :: first in A && q in A && first in a.states && q in a.states && Clash(a, P, c, first, q)
    ensures TypeErrorAt(a)
  {
    var first, q :| first in A && q in A && first in a.states && q in a.states && Clash(a, P, c, first, q);
    var i :| 0 <= i < |P| && Successor(a, q, c).value in P[i];
    ClassInside(P, DfaStates(a), P[i], Successor(a, q, c).value);
  }

  /**
    Lines 26-34: `A` is replaced in `P` by `set(X)` and the rest of `A`,
    and each part of more than one state is pushed onto `W`.
  */
  method SplitClass(a: Dfa, P0: Classes, W0: Classes, A: set<StateName>, X: seq<StateName>) returns (P: Classes, W: Classes)
    requires Partitions(P0, DfaStates(a)) && Separates(P0, Elements(a.accepts)) && Pending(W0, P0)
    requires A in P0 && A !in W0
    requires NoDuplicates(X) && X != [] && Elements(X) <= A && |X| != |A|
    ensures P == RemoveFirst(P0, A) + [Elements(X)] + [A - Elements(X)]
    ensures W == Pushed(W0, Elements(X), A - Elements(X))
    ensures Partitions(P, DfaStates(a)) && Separates(P, Elements(a.accepts)) && Pending(W, P)
    ensures Weight(W) < Weight(W0) + |A| * |A|
  {
    NoDuplicatesCard(X);
    var X1 := Elements(X);
    var X2 := A - X1;
    assert X[0] in X1;
    ProperPart(A, X1);
    SplitPartitions(P0, DfaStates(a), Elements(a.accepts), A, X1);
    PendingSplit(P0, W0, A, X1);
    P, W := RemoveFirst(P0, A) + [X1] + [X2], W0;
    if |X1| > 1 {
      W := W + [X1];
    }
    if |X2| > 1 {
      W := W + [X2];
    }
    PushParts(W0, P, A, X1);
  }

  /** A part of `A` of another size leaves something of `A` out. */
  lemma {:induction false} ProperPart(A: set<StateName>, X1: set<StateName>)
    requires X1 <= A && |X1| != |A|
    ensures A - X1 != {}
  {
    assert A == X1 + (A - X1) && X1 * (A - X1) == {};
  }

  /** The worklist after the parts of more than one state are pushed (lines 30-33). */
  ghost function Pushed(W: Classes, X1: set<StateName>, X2: set<StateName>): Classes
  {
    W + (if |X1| > 1 then [X1] else []) + (if |X2| > 1 then [X2] else [])
  }

  /** Pushing the two parts of a split class keeps the worklist waiting and lowers its weight below `W`'s plus `|A|²`. */
  lemma {:induction false} PushParts(W: Classes, P: Classes, A: set<StateName>, X1: set<StateName>)
    requires Pending(W, P) && X1 <= A && X1 != {} && A - X1 != {}
    requires X1 in P && A - X1 in P && X1 !in W && A - X1 !in W && X1 != A - X1
    ensures Pending(Pushed(W, X1, A - X1), P)
    ensures Weight(Pushed(W, X1, A - X1)) < Weight(W) + |A| * |A|
  {
    var X2 := A - X1;
    SplitWeight(A, X1);
    var W1 := W + (if |X1| > 1 then [X1] else []);
    if |X1| > 1 {
      PushOne(W, P, X1);
      WeightAppend(W, X1);
    } else {
      assert W1 == W;
    }
    assert X2 !in W1;
    if |X2| > 1 {
      PushOne(W1, P, X2);
      WeightAppend(W1, X2);
    } else {
      assert Pushed(W, X1, X2) == W1;
    }
  }

  /**
    Lines 15-34 for a popped class `A`: the symbols are tried in order, and
    at the first one whose list `X` misses part of `A`, the class is split.
    Without a split `P` and `W` are left as they are.
  */
  method SplitPopped(a: Dfa, P0: Classes, A: set<StateName>, W0: Classes) returns (raised: Option<Raised>, P: Classes, W: Classes)
    requires Partitions(P0, DfaStates(a)) && Separates(P0, Elements(a.accepts)) && Pending(W0, P0)
    requires A in P0 && A !in W0 && A != {}
    ensures raised == None ==> Partitions(P, DfaStates(a)) && Separates(P, Elements(a.accepts)) && Pending(W, P)
    ensures raised == None ==> Weight(W) < Weight(W0) + |A| * |A|
    ensures raised == Some(KeyError) ==> KeyErrorAt(a)
    ensures raised == Some(TypeError) ==> TypeErrorAt(a)
    ensures raised == None || raised == Some(KeyError) || raised == Some(TypeError)
  {
    raised, P, W := None, P0, W0;
    for k := 0 to |a.alphabet|
      invariant raised == None && P == P0 && W == W0
    {
      var c := a.alphabet[k];
      var X;
      raised, X := Splitter(a, P, A, c);
      match raised {
        case Some(KeyError) =>
          KeyErrorIn(a, P, A);
          return;
        case Some(TypeError) =>
          TypeErrorIn(a, P, A, c);
          return;
        case Some(IndexError) =>
          assert false;
        case None =>
      }
      if |X| != |A| {
        P, W := SplitClass(a, P, W, A, X);
        return;
      }
    }
  }

  /**
    Lines 6-34: the refinement. `P` starts as the accepting names and the
    other node names; the worklist `W` holds the accepting class when it
    has more than one name and the other class when it is non-empty.
    Without an exception `P` ends as a partition of the names that still
    separates accepting from non-accepting ones.
  */
  method Refine(a: Dfa) returns (raised: Option<Raised>, P: Classes)
    ensures raised == None ==> Partitions(P, DfaStates(a)) && Separates(P, Elements(a.accepts))
    ensures raised == Some(KeyError) ==> KeyErrorAt(a)
    ensures raised == Some(TypeError) ==> TypeErrorAt(a)
    ensures raised == None || raised == Some(KeyError) || raised == Some(TypeError)
  {
    var accepts := Elements(a.accepts);
    var others := Elements(a.states) - accepts;
    P := [accepts, others];
    InitialPartition(a);
    var W := [];
    if |accepts| > 1 {
      W := W + [accepts];
    }
    if |others| > 0 {
      W := W + [others];
    }
    InitialWorklist(a, W);
    raised := None;
    while W != []
      invariant raised == None
      invariant Partitions(P, DfaStates(a)) && Separates(P, accepts) && Pending(W, P)
      decreases Weight(W)
    {
      var A := W[0];
      PopHead(W, P);
      W := RemoveFirst(W, A);
      raised, P, W := SplitPopped(a, P, A, W);
      if raised.Some? {
        return;
      }
    }
  }

  /** Lines 7-10: the first worklist waits for classes of the first partition. */
  lemma {:induction false} InitialWorklist(a: Dfa, W: Classes)
    requires var accepts, others := Elements(a.accepts), Elements(a.states) - Elements(a.accepts);
      W == (if |accepts| > 1 then [accepts] else []) + (if |others| > 0 then [others] else [])
    ensures Pending(W, [Elements(a.accepts), Elements(a.states) - Elements(a.accepts)])
  {
    var accepts, others := Elements(a.accepts), Elements(a.states) - Elements(a.accepts);
    if |others| > 0 {
      var q :| q in others;
      assert q !in accepts;
    }
  }

  /** Lines 13-14: popping the head of the worklist, which lowers its weight by the head's. */
  lemma {:induction false} PopHead(W: Classes, P: Classes)
    requires W != [] && Pending(W, P)
    ensures RemoveFirst(W, W[0]) == W[1..] && Pending(W[1..], P)
    ensures W[0] !in W[1..] && W[0] in P && W[0] != {}
    ensures Weight(W) == Weight(W[1..]) + |W[0]| * |W[0]|
  {
    PendingTail(W, P);
  }

  // ---------------------------------------------------------------------
  // Collapsing the classes (lines 35-68)
  // ---------------------------------------------------------------------

  /** The name a state ends up as: its representative when it was absorbed, itself otherwise. */
  function Image(rep: map<StateName, StateName>, q: StateName): StateName
  {
    if q in rep then rep[q] else q
  }

  /** Every name of a list replaced by its image. */
  function Images(xs: seq<StateName>, rep: map<StateName, StateName>): seq<StateName>
  {
    if xs == [] then [] else [Image(rep, xs[0])] + Images(xs[1..], rep)
  }

  /** A triple whose target is replaced by its image. */
  function Bent(t: Triple, rep: map<StateName, StateName>): Triple
  {
    t.(to := Image(rep, t.to))
  }

  /**
    The triples once the absorbed states `rep.Keys` are gone: a triple
    leaving an absorbed state is dropped, every other one points at the
    image of its target.
  */
  function Collapsed(ts: seq<Triple>, rep: map<StateName, StateName>): seq<Triple>
  {
    if ts == [] then []
    else (if ts[0].from in rep then [] else [Bent(ts[0], rep)]) + Collapsed(ts[1..], rep)
  }

  /** No absorbed state is the representative of another. */
  ghost predicate NotAValue(rep: map<StateName, StateName>, q: StateName)
  {
    forall p :: p in rep ==> rep[p] != q
  }

  /** The triples leaving `cur`, in order: the list `remove_transitions` (lines 59-62). */
  function Leaving(ts: seq<Triple>, cur: StateName): seq<Triple>
  {
    if ts == [] then [] else (if ts[0].from == cur then [ts[0]] else []) + Leaving(ts[1..], cur)
  }

  /** The triples not leaving `cur`, in order. */
  function Staying(ts: seq<Triple>, cur: StateName): seq<Triple>
  {
    if ts == [] then [] else (if ts[0].from == cur then [] else [ts[0]]) + Staying(ts[1..], cur)
  }

  /** Lines 61-64 for one triple: one that does not leave `cur` but enters it is turned to `r`. */
  function Redirect(t: Triple, cur: StateName, r: StateName): Triple
  {
    if t.from != cur && t.to == cur then t.(to := r) else t
  }

  lemma {:induction false} LeavingAppend(xs: seq<Triple>, t: Triple, cur: StateName)
    ensures Leaving(xs + [t], cur) == Leaving(xs, cur) + (if t.from == cur then [t] else [])
    decreases |xs|
  {
    if xs != [] {
      assert (xs + [t])[1..] == xs[1..] + [t];
      LeavingAppend(xs[1..], t, cur);
    }
  }

  /** The triples leaving `cur` in a prefix one longer. */
  lemma {:induction false} LeavingPrefix(ts: seq<Triple>, k: nat, cur: StateName)
    requires k < |ts|
    ensures Leaving(ts[..k + 1], cur) == Leaving(ts[..k], cur) + (if ts[k].from == cur then [ts[k]] else [])
  {
    assert ts[..k + 1] == ts[..k] + [ts[k]];
    LeavingAppend(ts[..k], ts[k], cur);
  }

  /**
    Turning the triples that enter `cur` keeps the ones leaving `cur`, and
    what stays is the collapse onto `r` of `cur` alone.
  */
  lemma {:induction false} RedirectedSplit(ts: seq<Triple>, us: seq<Triple>, cur: StateName, r: StateName)
    requires |us| == |ts| && forall k :: 0 <= k < |ts| ==> us[k] == Redirect(ts[k], cur, r)
    ensures Leaving(us, cur) == Leaving(ts, cur)
    ensures Staying(us, cur) == Collapsed(ts, map[cur := r])
    decreases |ts|
  {
    if ts != [] {
      RedirectedSplit(ts[1..], us[1..], cur, r);
    }
  }

  /**
    Removing the first triple leaving `cur`, by value as `list.remove`
    does, takes it off the front of the triples leaving `cur` and keeps
    the others.
  */
  lemma {:induction false} RemoveMark(ts: seq<Triple>, cur: StateName, m: Triple, rest: seq<Triple>)
    requires Leaving(ts, cur) == [m] + rest
    ensures m in ts && m.from == cur
    ensures Leaving(RemoveFirst(ts, m), cur) == rest && Staying(RemoveFirst(ts, m), cur) == Staying(ts, cur)
    decreases |ts|
  {
    if ts[0].from == cur {
      assert Leaving(ts, cur) == [ts[0]] + Leaving(ts[1..], cur);
      assert ([m] + rest)[0] == m && ([m] + rest)[1..] == rest;
      assert ts[0] == m && Leaving(ts[1..], cur) == rest;
    } else {
      RemoveMark(ts[1..], cur, m, rest);
      var xs := RemoveFirst(ts, m);
      assert xs == [ts[0]] + RemoveFirst(ts[1..], m);
      assert xs[0] == ts[0] && xs[1..] == RemoveFirst(ts[1..], m);
    }
  }

  /** `RemoveMark` for the entry `j` of the collected triples. */
  lemma {:induction false} RemoveMarkAt(ts: seq<Triple>, cur: StateName, marks: seq<Triple>, j: nat)
    requires j < |marks| && Leaving(ts, cur) == marks[j..]
    ensures marks[j] in ts
    ensures Leaving(RemoveFirst(ts, marks[j]), cur) == marks[j + 1..]
    ensures Staying(RemoveFirst(ts, marks[j]), cur) == Staying(ts, cur)
  {
    assert marks[j..] == [marks[j]] + marks[j + 1..];
    RemoveMark(ts, cur, marks[j], marks[j + 1..]);
  }

  /** Without a triple leaving `cur`, every triple stays. */
  lemma {:induction false} NoneLeaving(ts: seq<Triple>, cur: StateName)
    requires Leaving(ts, cur) == []
    ensures Staying(ts, cur) == ts
    decreases |ts|
  {
    if ts != [] {
      NoneLeaving(ts[1..], cur);
      assert ts == [ts[0]] + ts[1..];
    }
  }

  /**
    Lines 53-66: the state `cur` is absorbed into `r`. It leaves the state
    list; in the accept list its first occurrence is replaced by an `r` at
    the end; the triples entering it are turned to `r` and those leaving
    it are removed.
  */
  method Absorb(cur: StateName, r: StateName, states0: seq<StateName>, accepts0: seq<StateName>, ts0: seq<Triple>)
    returns (states: seq<StateName>, accepts: seq<StateName>, ts: seq<Triple>)
    requires cur != r
    ensures states == if cur in states0 then RemoveFirst(states0, cur) else states0
    ensures accepts == if cur in accepts0 then RemoveFirst(accepts0, cur) + [r] else accepts0
    ensures ts == Collapsed(ts0, map[cur := r])
  {
    states, accepts := states0, accepts0;
    if cur in states {
      states := RemoveFirst(states, cur);
    }
    if cur in accepts {
      accepts := RemoveFirst(accepts, cur);
      accepts := accepts + [r];
    }
    var marks;
    ts, marks := TurnEntering(cur, r, ts0);
    ts := RemoveMarks(cur, ts, marks);
  }

  /** Lines 59-64: the triples entering `cur` are turned to `r`, and those leaving `cur` are collected. */
  method TurnEntering(cur: StateName, r: StateName, ts0: seq<Triple>) returns (ts: seq<Triple>, marks: seq<Triple>)
    ensures marks == Leaving(ts, cur) && Staying(ts, cur) == Collapsed(ts0, map[cur := r])
  {
    marks := [];
    ts := ts0;
    for k := 0 to |ts|
      invariant |ts| == |ts0|
      invariant forall j :: 0 <= j < k ==> ts[j] == Redirect(ts0[j], cur, r)
      invariant forall j :: k <= j < |ts| ==> ts[j] == ts0[j]
      invariant marks == Leaving(ts0[..k], cur)
    {
      LeavingPrefix(ts0, k, cur);
      if ts[k].from == cur {
        marks := marks + [ts[k]];
      } else if ts[k].to == cur {
        ts := ts[k := ts[k].(to := r)];
      }
    }
    assert ts0[..|ts0|] == ts0;
    RedirectedSplit(ts0, ts, cur, r);
  }

  /** Lines 65-66: the collected triples are removed one by one, leaving the triples that do not leave `cur`. */
  method RemoveMarks(cur: StateName, ts0: seq<Triple>, marks: seq<Triple>) returns (ts: seq<Triple>)
    requires marks == Leaving(ts0, cur)
    ensures ts == Staying(ts0, cur)
  {
    ts := ts0;
    for j := 0 to |marks|
      invariant Leaving(ts, cur) == marks[j..] && Staying(ts, cur) == Staying(ts0, cur)
    {
      RemoveMarkAt(ts, cur, marks, j);
      ts := RemoveFirst(ts, marks[j]);
    }
    NoneLeaving(ts, cur);
  }

  /** Absorbing `cur` into `r` after the states of `rep`: what the triples become. */
  lemma {:induction false} CollapsedCompose(ts: seq<Triple>, rep: map<StateName, StateName>, cur: StateName, r: StateName)
    requires cur !in rep && NotAValue(rep, cur)
    ensures Collapsed(Collapsed(ts, rep), map[cur := r]) == Collapsed(ts, rep[cur := r])
    decreases |ts|
  {
    if ts != [] {
      CollapsedCompose(ts[1..], rep, cur, r);
      var tail := Collapsed(ts[1..], rep);
      if ts[0].from in rep {
        assert Collapsed(ts, rep) == tail;
      } else {
        var t := Bent(ts[0], rep);
        assert Collapsed(ts, rep) == [t] + tail;
        assert ([t] + tail)[0] == t && ([t] + tail)[1..] == tail;
        if ts[0].from != cur {
          assert Image(map[cur := r], Image(rep, ts[0].to)) == Image(rep[cur := r], ts[0].to);
        }
      }
    }
  }

  /** Absorbing `cur` into `r` after the states of `rep`: what a list of names becomes. */
  lemma {:induction false} ImagesCompose(xs: seq<StateName>, rep: map<StateName, StateName>, cur: StateName, r: StateName)
    requires cur !in rep && NotAValue(rep, cur)
    ensures Images(Images(xs, rep), map[cur := r]) == Images(xs, rep[cur := r])
    decreases |xs|
  {
    if xs != [] {
      ImagesCompose(xs[1..], rep, cur, r);
      var y := Image(rep, xs[0]);
      var tail := Images(xs[1..], rep);
      assert ([y] + tail)[0] == y && ([y] + tail)[1..] == tail;
      assert Image(map[cur := r], y) == Image(rep[cur := r], xs[0]);
    }
  }

  /** A name that is neither absorbed nor a representative occurs in the images as often as in the list. */
  lemma {:induction false} ImagesCount(xs: seq<StateName>, rep: map<StateName, StateName>, cur: StateName)
    requires cur !in rep && NotAValue(rep, cur)
    ensures multiset(Images(xs, rep))[cur] == multiset(xs)[cur]
    decreases |xs|
  {
    if xs != [] {
      ImagesCount(xs[1..], rep, cur);
      assert xs == [xs[0]] + xs[1..];
      assert Image(rep, xs[0]) == cur <==> xs[0] == cur;
    }
  }

  /** Renaming a name that does not occur changes nothing. */
  lemma {:induction false} ImagesAbsent(ys: seq<StateName>, cur: StateName, r: StateName)
    requires cur !in ys
    ensures Images(ys, map[cur := r]) == ys
    decreases |ys|
  {
    if ys != [] {
      ImagesAbsent(ys[1..], cur, r);
      assert ys == [ys[0]] + ys[1..];
    }
  }

  /** Renaming a name that occurs once trades that occurrence for the new name. */
  lemma {:induction false} ImagesOnce(ys: seq<StateName>, cur: StateName, r: StateName)
    requires multiset(ys)[cur] == 1
    ensures multiset(Images(ys, map[cur := r])) + multiset{cur} == multiset(ys) + multiset{r}
    decreases |ys|
  {
    var m := map[cur := r];
    var y, t := ys[0], ys[1..];
    assert ys == [y] + t;
    assert multiset(ys) == multiset{y} + multiset(t);
    assert multiset(Images(ys, m)) == multiset{Image(m, y)} + multiset(Images(t, m));
    if y == cur {
      assert multiset(t)[cur] == 0;
      ImagesAbsent(t, cur, r);
      assert multiset(Images(ys, m)) == multiset{r} + multiset(t);
    } else {
      ImagesOnce(t, cur, r);
      assert Image(m, y) == y;
      assert multiset(Images(ys, m)) + multiset{cur} == multiset{y} + (multiset(Images(t, m)) + multiset{cur});
    }
  }

  /**
    The lists of lines 35-66 after the states `rep.Keys` are absorbed: the
    node names without them, the triples collapsed, and an accept list as
    long as the original that, when the original has no duplicates, holds
    the images of the accept names.
  */
  ghost predicate Collapsing(a: Dfa, rep: map<StateName, StateName>, states: seq<StateName>, accepts: seq<StateName>, ts: seq<Triple>)
  {
    && NoDuplicates(states) && Elements(states) == Elements(a.states) - rep.Keys
    && ts == Collapsed(a.transitions, rep)
    && |accepts| == |a.accepts|
    && (NoDuplicates(a.accepts) ==> multiset(accepts) == multiset(Images(a.accepts, rep)))
  }

  /** One absorption keeps the lists collapsed, now with `cur` absorbed into `r` as well. */
  lemma {:induction false} AbsorbStep(a: Dfa, rep: map<StateName, StateName>, states: seq<StateName>, accepts: seq<StateName>,
                                      ts: seq<Triple>, cur: StateName, r: StateName)
    requires Collapsing(a, rep, states, accepts, ts) && cur !in rep && NotAValue(rep, cur) && cur != r
    ensures Collapsing(a, rep[cur := r], if cur in states then RemoveFirst(states, cur) else states,
                       if cur in accepts then RemoveFirst(accepts, cur) + [r] else accepts, Collapsed(ts, map[cur := r]))
  {
    AbsorbStates(a, rep, states, cur, r);
    CollapsedCompose(a.transitions, rep, cur, r);
    if NoDuplicates(a.accepts) {
      AbsorbAccepts(a.accepts, rep, accepts, cur, r);
    }
  }

  /** Absorbing `cur` takes it out of the node names. */
  lemma {:induction false} AbsorbStates(a: Dfa, rep: map<StateName, StateName>, states: seq<StateName>, cur: StateName, r: StateName)
    requires NoDuplicates(states) && Elements(states) == Elements(a.states) - rep.Keys
    ensures var states' := if cur in states then RemoveFirst(states, cur) else states;
      NoDuplicates(states') && Elements(states') == Elements(a.states) - rep[cur := r].Keys
  {
    if cur in states {
      RemoveFirstUnique(states, cur);
    }
    assert rep[cur := r].Keys == rep.Keys + {cur};
  }

  /** Multiset arithmetic: trading one `x` for a `y`. */
  lemma TradeOne<T>(M: multiset<T>, M': multiset<T>, x: T, y: T)
    requires x in M && M' + multiset{x} == M + multiset{y}
    ensures (M - multiset{x}) + multiset{y} == M'
  {
    forall q ensures ((M - multiset{x}) + multiset{y})[q] == M'[q] {
      assert (M' + multiset{x})[q] == (M + multiset{y})[q];
    }
  }

  /** Absorbing `cur` into `r` trades its one accept entry for an `r`. */
  lemma {:induction false} AbsorbAccepts(accepts0: seq<StateName>, rep: map<StateName, StateName>, accepts: seq<StateName>,
                                         cur: StateName, r: StateName)
    requires NoDuplicates(accepts0) && multiset(accepts) == multiset(Images(accepts0, rep))
    requires cur !in rep && NotAValue(rep, cur)
    ensures var accepts' := if cur in accepts then RemoveFirst(accepts, cur) + [r] else accepts;
      multiset(accepts') == multiset(Images(accepts0, rep[cur := r]))
  {
    var ys := Images(accepts0, rep);
    ImagesCompose(accepts0, rep, cur, r);
    ImagesCount(accepts0, rep, cur);
    NoDuplicatesMultiset(accepts0, cur);
    if cur in accepts {
      assert multiset(ys)[cur] == 1;
      ImagesOnce(ys, cur, r);
      RemoveFirstMultiset(accepts, cur);
      assert multiset(RemoveFirst(accepts, cur) + [r]) == multiset(RemoveFirst(accepts, cur)) + multiset{r};
      TradeOne(multiset(accepts), multiset(Images(ys, map[cur := r])), cur, r);
    } else {
      assert cur !in multiset(ys);
      ImagesAbsent(ys, cur, r);
    }
  }

  /**
    The class `C` is collapsed onto `r`: `r` is one of its states, the
    start name when the class holds it, and every other state of the class
    is absorbed into `r`.
  */
  ghost predicate ClassCollapsed(C: set<StateName>, start: StateName, rep: map<StateName, StateName>, r: StateName)
  {
    && r in C && (start in C ==> r == start)
    && forall q :: q in C ==> (q in rep <==> q != r) && (q in rep ==> rep[q] == r)
  }

  /** `q` lies in one of the first `i` classes, one of more than one state. */
  ghost predicate Earlier(P: Classes, i: nat, q: StateName)
    requires i <= |P|
  {
    exists j :: 0 <= j < i && |P[j]| > 1 && q in P[j]
  }

  /**
    The first `i` classes of `P` are done (lines 45-66): each of more than
    one state is collapsed onto its representative `R[j]`, and no other
    state is absorbed.
  */
  ghost predicate Done(P: Classes, i: nat, start: StateName, rep: map<StateName, StateName>, R: seq<StateName>)
  {
    && i <= |P| && |R| == i
    && (forall j :: 0 <= j < i && |P[j]| > 1 ==> ClassCollapsed(P[j], start, rep, R[j]))
    && (forall q :: q in rep ==> Earlier(P, i, q))
  }

  /**
    Inside the class `P[i]` (lines 47-66), after its members `seen` are
    visited: `chosen` is `this_state`, set to the start name when the class
    holds it and otherwise to the first member visited, and the visited
    members other than `chosen` are absorbed into it.
  */
  ghost predicate Visiting(P: Classes, i: nat, start: StateName, rep: map<StateName, StateName>, R: seq<StateName>,
                           chosen: Option<StateName>, seen: set<StateName>)
  {
    && i < |P| && |R| == i && seen <= P[i]
    && (forall j :: 0 <= j < i && |P[j]| > 1 ==> ClassCollapsed(P[j], start, rep, R[j]))
    && (forall q :: q in rep ==> q in seen || Earlier(P, i, q))
    && (chosen.None? <==> seen == {} && start !in P[i])
    && (chosen.Some? ==> chosen.value in P[i] && chosen.value !in rep && (start in P[i] ==> chosen.value == start))
    && (forall q :: q in P[i] ==> (q in rep <==> q in seen && Some(q) != chosen) && (q in rep ==> Some(rep[q]) == chosen))
  }

  /** A state of the class `P[i]` lies in none of the classes before it. */
  lemma {:induction false} EarlierApart(P: Classes, i: nat, q: StateName)
    requires Disjoint(P) && i < |P| && q in P[i]
    ensures !Earlier(P, i, q)
  {
    forall j | 0 <= j < i ensures q !in P[j] {
      assert q !in P[j] * P[i];
    }
  }

  /** Lines 47-48: entering the class `P[i]`. */
  lemma {:induction false} EnterClass(P: Classes, i: nat, start: StateName, rep: map<StateName, StateName>, R: seq<StateName>)
    requires Disjoint(P) && Done(P, i, start, rep, R) && i < |P|
    ensures Visiting(P, i, start, rep, R, if start in P[i] then Some(start) else None, {})
  {
    forall q | q in P[i] ensures q !in rep {
      EarlierApart(P, i, q);
    }
  }

  /** Line 50: the first member visited in a class without the start name becomes `this_state`. */
  lemma {:induction false} VisitFirst(P: Classes, i: nat, start: StateName, rep: map<StateName, StateName>, R: seq<StateName>,
                                      cur: StateName)
    requires Visiting(P, i, start, rep, R, None, {}) && cur in P[i]
    ensures Visiting(P, i, start, rep, R, Some(cur), {cur})
  {
  }

  /** Line 51: visiting `this_state` itself changes nothing. */
  lemma {:induction false} VisitChosen(P: Classes, i: nat, start: StateName, rep: map<StateName, StateName>, R: seq<StateName>,
                                       x: StateName, seen: set<StateName>)
    requires Visiting(P, i, start, rep, R, Some(x), seen)
    ensures Visiting(P, i, start, rep, R, Some(x), seen + {x})
  {
  }

  /**
    Lines 51-66: any other member `cur` is absorbed into `this_state`; it
    is neither absorbed already nor anybody's representative.
  */
  lemma {:induction false} VisitAbsorb(P: Classes, i: nat, start: StateName, rep: map<StateName, StateName>, R: seq<StateName>,
                                       x: StateName, seen: set<StateName>, cur: StateName)
    requires Disjoint(P) && Visiting(P, i, start, rep, R, Some(x), seen) && cur in P[i] - seen && cur != x
    ensures cur !in rep && NotAValue(rep, cur)
    ensures Visiting(P, i, start, rep[cur := x], R, Some(x), seen + {cur})
  {
    var rep' := rep[cur := x];
    forall p | p in rep ensures rep[p] != cur {
      if p !in seen {
        var j :| 0 <= j < i && |P[j]| > 1 && p in P[j];
        assert rep[p] == R[j] && R[j] in P[j];
        assert cur !in P[j] * P[i];
      }
    }
    forall j | 0 <= j < i && |P[j]| > 1 ensures ClassCollapsed(P[j], start, rep', R[j]) {
      forall q | q in P[j] ensures q != cur {
        assert q !in P[j] * P[i];
      }
    }
    forall q | q in rep' ensures q in seen + {cur} || Earlier(P, i, q) {
    }
  }

  /** Leaving the class `P[i]` once all of it is visited: it is collapsed onto `this_state`. */
  lemma {:induction false} LeaveClass(P: Classes, i: nat, start: StateName, rep: map<StateName, StateName>, R: seq<StateName>,
                                      chosen: Option<StateName>)
    requires i < |P| && Visiting(P, i, start, rep, R, chosen, P[i]) && |P[i]| > 1
    ensures chosen.Some? && Done(P, i + 1, start, rep, R + [chosen.value])
  {
    var R' := R + [chosen.value];
    forall j | 0 <= j < i + 1 && |P[j]| > 1 ensures ClassCollapsed(P[j], start, rep, R'[j]) {
      assert R'[j] == if j < i then R[j] else chosen.value;
    }
    forall q | q in rep ensures Earlier(P, i + 1, q) {
      if q in P[i] {
        assert |P[i]| > 1;
      } else {
        var j :| 0 <= j < i && |P[j]| > 1 && q in P[j];
      }
    }
  }

  /** Line 46: a class of at most one state is left alone. */
  lemma {:induction false} SkipClass(P: Classes, i: nat, start: StateName, rep: map<StateName, StateName>, R: seq<StateName>)
    requires Done(P, i, start, rep, R) && i < |P| && |P[i]| <= 1
    ensures Done(P, i + 1, start, rep, R + [start])
  {
    var R' := R + [start];
    forall j | 0 <= j < i + 1 && |P[j]| > 1 ensures ClassCollapsed(P[j], start, rep, R'[j]) {
      assert j < i && R'[j] == R[j];
    }
    forall q | q in rep ensures Earlier(P, i + 1, q) {
      var j :| 0 <= j < i && |P[j]| > 1 && q in P[j];
    }
  }

  /** Lines 49-66 for one class of more than one state. */
  method CollapseClass(a: Dfa, P: Classes, i: nat, states0: seq<StateName>, accepts0: seq<StateName>, ts0: seq<Triple>,
                       rep0: map<StateName, StateName>, R0: seq<StateName>)
    returns (states: seq<StateName>, accepts: seq<StateName>, ts: seq<Triple>,
             rep: map<StateName, StateName>, R: seq<StateName>)
    requires Disjoint(P) && Done(P, i, a.start, rep0, R0) && i < |P| && |P[i]| > 1
    requires Collapsing(a, rep0, states0, accepts0, ts0)
    ensures Done(P, i + 1, a.start, rep, R) && Collapsing(a, rep, states, accepts, ts)
  {
    states, accepts, ts, rep, R := states0, accepts0, ts0, rep0, R0;
    var chosen: Option<StateName> := None;
    if a.start in P[i] {
      chosen := Some(a.start);
    }
    EnterClass(P, i, a.start, rep, R);
    var rest := P[i];
    ghost var seen: set<StateName> := {};
    while rest != {}
      invariant seen * rest == {} && seen + rest == P[i]
      invariant Visiting(P, i, a.start, rep, R, chosen, seen) && Collapsing(a, rep, states, accepts, ts)
      decreases |rest|
    {
      var cur :| cur in rest;
      VisitOne(P[i], seen, rest, cur);
      rest := rest - {cur};
      if chosen == None {
        VisitFirst(P, i, a.start, rep, R, cur);
        chosen := Some(cur);
      } else if chosen.value == cur {
        VisitChosen(P, i, a.start, rep, R, cur, seen);
      } else {
        VisitAbsorb(P, i, a.start, rep, R, chosen.value, seen, cur);
        AbsorbStep(a, rep, states, accepts, ts, cur, chosen.value);
        states, accepts, ts := Absorb(cur, chosen.value, states, accepts, ts);
        rep := rep[cur := chosen.value];
      }
      seen := seen + {cur};
    }
    LeaveClass(P, i, a.start, rep, R, chosen);
    R := R + [chosen.value];
  }

  /** No absorbed state leaves the triples as they are. */
  lemma {:induction false} CollapsedNone(ts: seq<Triple>)
    ensures Collapsed(ts, map[]) == ts
    decreases |ts|
  {
    if ts != [] {
      CollapsedNone(ts[1..]);
      assert ts == [ts[0]] + ts[1..];
    }
  }

  /** No absorbed state leaves the names as they are. */
  lemma {:induction false} ImagesNone(xs: seq<StateName>)
    ensures Images(xs, map[]) == xs
    decreases |xs|
  {
    if xs != [] {
      ImagesNone(xs[1..]);
      assert xs == [xs[0]] + xs[1..];
    }
  }

  /** Lines 36-37: the node names, in the dictionary's iteration order, which the model leaves open. */
  method NodeKeys(a: Dfa) returns (keys: seq<StateName>)
    ensures NoDuplicates(keys) && Elements(keys) == Elements(a.states)
  {
    keys := [];
    var rest := Elements(a.states);
    while rest != {}
      invariant NoDuplicates(keys) && Elements(keys) * rest == {} && Elements(keys) + rest == Elements(a.states)
      decreases |rest|
    {
      var s :| s in rest;
      AppendIfAbsent(keys, s);
      VisitOne(Elements(a.states), Elements(keys), rest, s);
      keys := keys + [s];
      rest := rest - {s};
    }
  }

  /** Lines 39-43: a list copied entry by entry. */
  method CopyList<T>(xs: seq<T>) returns (ys: seq<T>)
    ensures ys == xs
  {
    ys := [];
    for k := 0 to |xs|
      invariant ys == xs[..k]
    {
      ys := ys + [xs[k]];
    }
    assert xs[..|xs|] == xs;
  }

  /**
    `d` is `a` with the classes of `P` collapsed as `rep` and `R` record:
    the classes are collapsed onto their representatives; `d` lists the
    node names that were not absorbed, keeps the start name and the
    alphabet, holds the collapsed triples, and has an accept list as long
    as `a`'s that, when `a`'s has no duplicates, holds the images of its
    names.
  */
  ghost predicate CollapseOf(a: Dfa, P: Classes, rep: map<StateName, StateName>, R: seq<StateName>, d: Dfa)
  {
    && Done(P, |P|, a.start, rep, R)
    && d.start == a.start && d.alphabet == a.alphabet
    && NoDuplicates(d.states) && Elements(d.states) == Elements(a.states) - rep.Keys
    && d.transitions == Collapsed(a.transitions, rep)
    && |d.accepts| == |a.accepts|
    && (NoDuplicates(a.accepts) ==> multiset(d.accepts) == multiset(Images(a.accepts, rep)))
  }

  /**
    Lines 35-68: each class of more than one state is collapsed onto one
    representative, the start name when the class holds it; the result
    lists the node names that were not absorbed, the same start name and
    alphabet, and the collapsed triples.
  */
  method Collapse(a: Dfa, P: Classes) returns (r: Dfa, rep: map<StateName, StateName>, R: seq<StateName>)
    requires Disjoint(P)
    ensures CollapseOf(a, P, rep, R, r)
  {
    var states := NodeKeys(a);
    var accepts := CopyList(a.accepts);
    var ts := CopyList(a.transitions);
    rep, R := map[], [];
    CollapsedNone(a.transitions);
    ImagesNone(a.accepts);
    for i := 0 to |P|
      invariant Done(P, i, a.start, rep, R) && Collapsing(a, rep, states, accepts, ts)
    {
      if |P[i]| > 1 {
        states, accepts, ts, rep, R := CollapseClass(a, P, i, states, accepts, ts, rep, R);
      } else {
        SkipClass(P, i, a.start, rep, R);
        R := R + [a.start];
      }
    }
    r := Automaton(states, a.start, accepts, ts, a.alphabet);
  }

  /**
    `hopcroftMinimize`: the refinement of lines 6-34, then the collapse of
    lines 35-68. An exception of the refinement propagates; otherwise the
    classes partition the names, keep accepting and other names apart, and
    the result is the automaton collapsed along them.
  */
  method HopcroftMinimize(a: Dfa)
    returns (r: Result<Dfa, Raised>, P: Classes, ghost rep: map<StateName, StateName>, ghost R: seq<StateName>)
    ensures r.Err? ==> (r.error == KeyError && KeyErrorAt(a)) || (r.error == TypeError && TypeErrorAt(a))
    ensures r.Ok? ==> Partitions(P, DfaStates(a)) && Separates(P, Elements(a.accepts)) && CollapseOf(a, P, rep, R, r.value)
  {
    var raised;
    raised, P := Refine(a);
    rep, R := map[], [];
    match raised {
      case Some(e) =>
        return Err(e), P, rep, R;
      case None =>
    }
    var d;
    d, rep, R := Collapse(a, P);
    r := Ok(d);
  }

  // ---------------------------------------------------------------------
  // Properties of the collapsed automaton
  // ---------------------------------------------------------------------

  /** The start name is never absorbed. */
  lemma {:induction false} StartSurvives(P: Classes, start: StateName, rep: map<StateName, StateName>, R: seq<StateName>)
    requires Done(P, |P|, start, rep, R)
    ensures start !in rep
  {
    forall j | 0 <= j < |P| && |P[j]| > 1 && start in P[j] ensures start !in rep {
      assert ClassCollapsed(P[j], start, rep, R[j]);
    }
  }

  /** An absorbed state is absorbed into a surviving state of its own class. */
  lemma {:induction false} AbsorbedIntoSurvivor(P: Classes, start: StateName, rep: map<StateName, StateName>, R: seq<StateName>,
                                                q: StateName)
    requires Done(P, |P|, start, rep, R) && q in rep
    ensures rep[q] !in rep && exists j :: 0 <= j < |P| && q in P[j] && rep[q] in P[j]
  {
    var j :| 0 <= j < |P| && |P[j]| > 1 && q in P[j];
    assert ClassCollapsed(P[j], start, rep, R[j]);
  }

  /** Each class of more than one state keeps exactly one state, its representative. */
  lemma {:induction false} OneSurvivor(P: Classes, start: StateName, rep: map<StateName, StateName>, R: seq<StateName>, j: nat)
    requires Done(P, |P|, start, rep, R) && j < |P| && |P[j]| > 1
    ensures R[j] in P[j] && R[j] !in rep
    ensures forall q :: q in P[j] && q !in rep ==> q == R[j]
  {
    assert ClassCollapsed(P[j], start, rep, R[j]);
  }

  /** The names an image list holds are the images of the names of the list. */
  lemma {:induction false} ImagesMember(xs: seq<StateName>, rep: map<StateName, StateName>, q: StateName)
    ensures q in Images(xs, rep) <==> exists x :: x in xs && q == Image(rep, x)
    decreases |xs|
  {
    if xs != [] {
      ImagesMember(xs[1..], rep, q);
      assert xs == [xs[0]] + xs[1..];
    }
  }

  /**
    The accept names of the result are accepting names that survive:
    an absorbed accepting name is taken into the representative of its
    class, which is accepting as well.
  */
  lemma {:induction false} AcceptsSurvive(a: Dfa, P: Classes, rep: map<StateName, StateName>, R: seq<StateName>)
    requires Partitions(P, DfaStates(a)) && Separates(P, Elements(a.accepts)) && Done(P, |P|, a.start, rep, R)
    ensures forall q :: q in Images(a.accepts, rep) ==> q in a.accepts && q !in rep
  {
    forall q | q in Images(a.accepts, rep) ensures q in a.accepts && q !in rep {
      ImagesMember(a.accepts, rep, q);
      var x :| x in a.accepts && q == Image(rep, x);
      if x in rep {
        var j :| 0 <= j < |P| && |P[j]| > 1 && x in P[j];
        assert ClassCollapsed(P[j], a.start, rep, R[j]);
        assert x in P[j] * Elements(a.accepts);
      }
    }
  }

  /**
    The triples of the result are exactly the triples of the source that
    leave a surviving state, each pointing at the image of its target.
  */
  lemma {:induction false} CollapsedMembers(ts: seq<Triple>, rep: map<StateName, StateName>, t: Triple)
    ensures t in Collapsed(ts, rep) <==> exists k :: 0 <= k < |ts| && ts[k].from !in rep && t == Bent(ts[k], rep)
    decreases |ts|
  {
    if ts != [] {
      CollapsedMembers(ts[1..], rep, t);
      if exists k :: 0 <= k < |ts| && ts[k].from !in rep && t == Bent(ts[k], rep) {
        var k :| 0 <= k < |ts| && ts[k].from !in rep && t == Bent(ts[k], rep);
        if k > 0 {
          assert ts[1..][k - 1] == ts[k];
        }
      }
      if exists k :: 0 <= k < |ts| - 1 && ts[1..][k].from !in rep && t == Bent(ts[1..][k], rep) {
        var k :| 0 <= k < |ts| - 1 && ts[1..][k].from !in rep && t == Bent(ts[1..][k], rep);
        assert ts[k + 1] == ts[1..][k];
      }
    }
  }

  /**
    For a well-formed automaton, every triple of the collapsed automaton
    joins two surviving node names.
  */
  lemma {:induction false} CollapsedWithinStates(a: Dfa, P: Classes, rep: map<StateName, StateName>, R: seq<StateName>, t: Triple)
    requires WellFormed(a) && Partitions(P, DfaStates(a)) && Done(P, |P|, a.start, rep, R)
    requires t in Collapsed(a.transitions, rep)
    ensures t.from in Elements(a.states) - rep.Keys && t.to in Elements(a.states) - rep.Keys
  {
    CollapsedMembers(a.transitions, rep, t);
    var k :| 0 <= k < |a.transitions| && a.transitions[k].from !in rep && t == Bent(a.transitions[k], rep);
    var q := a.transitions[k].to;
    if q in rep {
      AbsorbedIntoSurvivor(P, a.start, rep, R, q);
      var j :| 0 <= j < |P| && q in P[j] && rep[q] in P[j];
      ClassInside(P, DfaStates(a), P[j], rep[q]);
    }
  }
}
