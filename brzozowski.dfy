/**
  Brzozowski's minimisation: reverse the automaton, determinise it by the
  powerset construction, keep the reachable part, and do all three once
  more. The automata here keep a list of start names.
*/
module Brzozowski {
  import opened Wrappers
  import opened Names
  import opened Automata

  /** An automaton whose `start` is a list of names. */
  type ListAutomaton = Automaton<seq<StateName>>

  /** A triple with its two ends exchanged. */
  function Swap(t: Triple): Triple
  {
    Triple(t.to, t.symbols, t.from)
  }

  /** Every triple of `ts` with its ends exchanged, in the same order. */
  function Swapped(ts: seq<Triple>): (r: seq<Triple>)
    ensures |r| == |ts| && forall k :: 0 <= k < |ts| ==> r[k] == Swap(ts[k])
  {
    seq(|ts|, k requires 0 <= k < |ts| => Swap(ts[k]))
  }

  /** The reverse automaton: starts and accepts exchanged, every transition turned round. */
  function Reversed(a: ListAutomaton): ListAutomaton
  {
    Automaton(a.states, a.accepts, a.start, Swapped(a.transitions), a.alphabet)
  }

  /**
    `revers(nfa)`: copies the start list into the new accept list and the
    accept list into the new start list, and swaps the ends of every triple.
  */
  method Revers(a: ListAutomaton) returns (r: ListAutomaton)
    ensures r == Reversed(a)
  {
    var newAccept := [];
    for k := 0 to |a.start|
      invariant newAccept == a.start[..k]
    {
      newAccept := newAccept + [a.start[k]];
    }
    var newStart := [];
    for k := 0 to |a.accepts|
      invariant newStart == a.accepts[..k]
    {
      newStart := newStart + [a.accepts[k]];
    }
    var newTransitions := [];
    for k := 0 to |a.transitions|
      invariant |newTransitions| == k
      invariant forall i :: 0 <= i < k ==> newTransitions[i] == Swap(a.transitions[i])
    {
      var s := a.transitions[k];
      var temp := s.from;
      s := s.(from := s.to);
      s := s.(to := temp);
      newTransitions := newTransitions + [s];
    }
    assert a.start[..|a.start|] == a.start && a.accepts[..|a.accepts|] == a.accepts;
    r := Automaton(a.states, newStart, newAccept, newTransitions, a.alphabet);
  }

  /** Reversing twice gives the automaton back. */
  lemma {:induction false} ReversedTwice(a: ListAutomaton)
    ensures Reversed(Reversed(a)) == a
  {
    assert Swapped(Swapped(a.transitions)) == a.transitions;
  }

  /** The reverse has an edge `p -> q` on a symbol exactly when the automaton has `q -> p`. */
  lemma {:induction false} ReversedEdges(a: ListAutomaton, p: StateName, q: StateName, symbol: Symbol)
    ensures q in TargetsIn(Reversed(a).transitions, p, symbol) <==> p in TargetsIn(a.transitions, q, symbol)
  {
    var ts, rs := a.transitions, Reversed(a).transitions;
    TargetsInMembers(ts, q, symbol, p);
    TargetsInMembers(rs, p, symbol, q);
    if q in TargetsIn(rs, p, symbol) {
      var k :| 0 <= k < |rs| && rs[k].from == p && symbol in rs[k].symbols && rs[k].to == q;
      assert ts[k].from == q && symbol in ts[k].symbols && ts[k].to == p;
    }
    if p in TargetsIn(ts, q, symbol) {
      var k :| 0 <= k < |ts| && ts[k].from == q && symbol in ts[k].symbols && ts[k].to == p;
      assert rs[k].from == p && symbol in rs[k].symbols && rs[k].to == q;
    }
  }

  /**
    What `determinis` trusts of its input: every triple joins listed
    states, and the start list names listed states, each once.
  */
  predicate SubsetReady(a: ListAutomaton)
  {
    && NoDuplicates(a.start)
    && (forall q :: q in a.start ==> q in a.states)
    && (forall k :: 0 <= k < |a.transitions| ==>
          a.transitions[k].from in a.states && a.transitions[k].to in a.states)
  }

  /** The reverse of a well-formed automaton can be determinised. */
  lemma {:induction false} ReversedReady(a: ListAutomaton)
    requires WellFormed(a)
    ensures SubsetReady(Reversed(a))
  {
  }

  // ---------------------------------------------------------------------
  // All subsets (lines 21-33)
  // ---------------------------------------------------------------------

  /** `s` lists, sorted and each once, some of the names `states` lists. */
  predicate IsSubsetList(s: seq<StateName>, states: seq<StateName>)
  {
    StrictlySorted(s) && forall x :: x in s ==> x in states
  }

  /** The subset list `L` starts with the empty subset and holds sorted subsets, each once. */
  predicate SubsetListShape(L: seq<seq<StateName>>, states: seq<StateName>)
  {
    && |L| > 0 && L[0] == []
    && (forall t :: t in L ==> IsSubsetList(t, states))
    && NoDuplicates(L)
  }

  /** `temp` of lines 27-31: `s` with `x` added when it is missing, sorted. */
  function Extended(s: seq<StateName>, x: StateName): seq<StateName>
  {
    Sort(if x in s then s else s + [x])
  }

  /** Adding a listed state to a subset list gives a subset list with that state added. */
  lemma {:induction false} ExtendedIsSubsetList(s: seq<StateName>, x: StateName, states: seq<StateName>)
    requires IsSubsetList(s, states) && x in states
    ensures IsSubsetList(Extended(s, x), states) && Elements(Extended(s, x)) == Elements(s) + {x}
  {
    StrictlySortedIsSorted(s);
    if x in s {
      SortOfSorted(s);
    } else {
      assert NoDuplicates(s + [x]);
      SortNoDuplicates(s + [x]);
      assert forall y :: y in Extended(s, x) ==> y in Elements(s + [x]);
    }
  }

  /** Extending any of the first `j` entries of `L` by any listed state gives an entry of `L`. */
  ghost predicate ClosedBelow(L: seq<seq<StateName>>, states: seq<StateName>, j: nat)
  {
    forall j', i {:trigger Extended(L[j'], states[i])} ::
      0 <= j' < j && j' < |L| && 0 <= i < |states| ==> Extended(L[j'], states[i]) in L
  }

  /** Extending `s` by any of the first `i` listed states gives an entry of `L`. */
  ghost predicate RowClosed(L: seq<seq<StateName>>, states: seq<StateName>, s: seq<StateName>, i: nat)
  {
    forall i' {:trigger Extended(s, states[i'])} :: 0 <= i' < i && i' < |states| ==> Extended(s, states[i']) in L
  }

  /** Extending any entry of `L` by any listed state gives an entry of `L`. */
  ghost predicate ClosedUnderExtension(L: seq<seq<StateName>>, states: seq<StateName>)
  {
    ClosedBelow(L, states, |L|)
  }

  /** One step of the innermost loop keeps both closure facts and extends the row by one. */
  lemma {:induction false} ExtensionStep(L: seq<seq<StateName>>, L': seq<seq<StateName>>, states: seq<StateName>, j: nat,
                      s: seq<StateName>, i: nat)
    requires j < |L| && s == L[j] && i < |states|
    requires L' == if Extended(s, states[i]) in L then L else L + [Extended(s, states[i])]
    requires ClosedBelow(L, states, j) && RowClosed(L, states, s, i)
    ensures ClosedBelow(L', states, j) && RowClosed(L', states, s, i + 1) && L <= L'
  {
    forall j', i' | 0 <= j' < j && j' < |L'| && 0 <= i' < |states|
      ensures Extended(L'[j'], states[i']) in L'
    {
      assert L'[j'] == L[j'];
    }
  }

  /** Once every entry of `L` has been extended, `L` is closed under extension. */
  lemma {:induction false} ClosedBelowAll(L: seq<seq<StateName>>, states: seq<StateName>, j: nat)
    requires ClosedBelow(L, states, j) && j == |L|
    ensures ClosedUnderExtension(L, states)
  {
  }

  /** The subsets of the listed states that no entry of `L` lists yet. */
  ghost function Missing(L: seq<seq<StateName>>, states: seq<StateName>): set<set<StateName>>
  {
    (set s | s <= Elements(states)) - (set t | t in L :: Elements(t))
  }

  /** Appending a subset list that `L` lacks leaves fewer subsets missing. */
  lemma {:induction false} MissingShrinks(L: seq<seq<StateName>>, states: seq<StateName>, t: seq<StateName>)
    requires SubsetListShape(L, states) && IsSubsetList(t, states) && t !in L
    ensures Missing(L + [t], states) < Missing(L, states)
    ensures SubsetListShape(L + [t], states)
  {
    assert forall u :: u in L + [t] ==> u in L || u == t;
    var e := Elements(t);
    assert e <= Elements(states);
    forall u | u in L ensures Elements(u) != e {
      if Elements(u) == e {
        StrictlySortedUnique(u, t);
      }
    }
    assert (set u | u in L + [t] :: Elements(u)) == (set u | u in L :: Elements(u)) + {e};
    assert e in Missing(L, states) && e !in Missing(L + [t], states);
  }

  /**
    The subset list of lines 21-33. The inner `for s in new_states` runs
    over entries appended while it runs, so it is a loop on a growing index.
  */
  method SubsetList(states: seq<StateName>) returns (L: seq<seq<StateName>>)
    ensures SubsetListShape(L, states)
    ensures ClosedUnderExtension(L, states)
  {
    L := [[]];
    for pass := 0 to |states|
      invariant SubsetListShape(L, states)
      invariant pass > 0 ==> ClosedUnderExtension(L, states)
    {
      var j := 0;
      while j < |L|
        invariant 0 <= j <= |L|
        invariant SubsetListShape(L, states)
        invariant ClosedBelow(L, states, j)
        decreases Missing(L, states), |L| - j
      {
        var s := L[j];
        ghost var before := L;
        for i := 0 to |states|
          invariant SubsetListShape(L, states)
          invariant before <= L
          invariant ClosedBelow(L, states, j) && RowClosed(L, states, s, i)
          invariant L == before || Missing(L, states) < Missing(before, states)
        {
          var temp := s;
          if states[i] !in temp {
            temp := temp + [states[i]];
          }
          temp := Sort(temp);
          assert temp == Extended(s, states[i]);
          ghost var L' := if temp in L then L else L + [temp];
          ExtensionStep(L, L', states, j, s, i);
          if temp !in L {
            ExtendedIsSubsetList(s, states[i], states);
            MissingShrinks(L, states, temp);
            L := L + [temp];
          }
        }
        assert ClosedBelow(L, states, j + 1) by {
          forall j', i' | 0 <= j' < j + 1 && j' < |L| && 0 <= i' < |states|
            ensures Extended(L[j'], states[i']) in L
          {
            if j' == j {
              assert L[j'] == s;
            }
          }
        }
        j := j + 1;
      }
      ClosedBelowAll(L, states, j);
    }
  }

  /** A list closed under extension that starts with the empty subset holds every subset list. */
  lemma {:induction false} SubsetListComplete(L: seq<seq<StateName>>, states: seq<StateName>, t: seq<StateName>)
    requires SubsetListShape(L, states) && ClosedUnderExtension(L, states)
    requires IsSubsetList(t, states)
    ensures t in L
    decreases |t|
  {
    if t != [] {
      var init, x := t[..|t| - 1], t[|t| - 1];
      assert IsSubsetList(init, states);
      SubsetListComplete(L, states, init);
      ExtendedLast(t);
      var j :| 0 <= j < |L| && L[j] == init;
      assert x in t;
      var i :| 0 <= i < |states| && states[i] == x;
      assert Extended(L[j], states[i]) in L;
    }
  }

  /** A strictly sorted list is its last name added to the rest. */
  lemma {:induction false} ExtendedLast(t: seq<StateName>)
    requires StrictlySorted(t) && |t| > 0
    ensures Extended(t[..|t| - 1], t[|t| - 1]) == t
  {
    var init, x := t[..|t| - 1], t[|t| - 1];
    StrictlySortedIsSorted(t);
    assert x !in init;
    assert t == init + [x];
    SortOfSorted(t);
  }

  // ---------------------------------------------------------------------
  // Start and accept subsets (lines 36-49)
  // ---------------------------------------------------------------------

  /**
    A name while lines 75-87 rename subsets to numbers: still a subset
    list, or already the number of its position in the subset list.
  */
  datatype Endpoint = Subset(names: seq<StateName>) | Number(n: nat)

  /** A triple `[from, [alpha], to]` of lines 66-70 whose ends are subsets or numbers. */
  datatype SubsetTriple = SubsetTriple(from: Endpoint, symbols: seq<Symbol>, to: Endpoint)

  /** Some name of the subset `s` is accepting (lines 45-48). */
  predicate HasAccepting(s: seq<StateName>, accepts: seq<StateName>)
  {
    exists x :: x in s && x in accepts
  }

  /** The positions `lo <= j < hi` of `L` whose subset holds an accepting name, ascending. */
  function AcceptingIn(L: seq<seq<StateName>>, accepts: seq<StateName>, lo: nat, hi: nat): (r: seq<nat>)
    requires lo <= hi <= |L|
    ensures forall k :: 0 <= k < |r| ==> lo <= r[k] < hi
    decreases hi
  {
    if lo == hi then []
    else AcceptingIn(L, accepts, lo, hi - 1) + (if HasAccepting(L[hi - 1], accepts) then [hi - 1] else [])
  }

  /** `AcceptingIn` read from its lower end. */
  lemma {:induction false} AcceptingInFront(L: seq<seq<StateName>>, accepts: seq<StateName>, lo: nat, hi: nat)
    requires lo < hi <= |L|
    ensures AcceptingIn(L, accepts, lo, hi) ==
      (if HasAccepting(L[lo], accepts) then [lo] else []) + AcceptingIn(L, accepts, lo + 1, hi)
    decreases hi
  {
    if lo + 1 < hi {
      AcceptingInFront(L, accepts, lo, hi - 1);
      var head := if HasAccepting(L[lo], accepts) then [lo] else [];
      var last := if HasAccepting(L[hi - 1], accepts) then [hi - 1] else [];
      ConcatAssociative(head, AcceptingIn(L, accepts, lo + 1, hi - 1), last);
    }
  }

  /** A position is listed exactly when it is in range and its subset holds an accepting name. */
  lemma {:induction false} AcceptingInMembers(L: seq<seq<StateName>>, accepts: seq<StateName>, lo: nat, hi: nat, j: nat)
    requires lo <= hi <= |L|
    ensures j in AcceptingIn(L, accepts, lo, hi) <==> lo <= j < hi && HasAccepting(L[j], accepts)
    decreases hi
  {
    if lo < hi {
      AcceptingInMembers(L, accepts, lo, hi - 1, j);
    }
  }

  /** The subsets at the positions `ks` of `L`. */
  function AsSubsets(L: seq<seq<StateName>>, ks: seq<nat>): (r: seq<Endpoint>)
    requires forall k :: 0 <= k < |ks| ==> ks[k] < |L|
    ensures |r| == |ks| && forall n :: 0 <= n < |ks| ==> r[n] == Subset(L[ks[n]])
  {
    seq(|ks|, n requires 0 <= n < |ks| => Subset(L[ks[n]]))
  }

  /** The positions `ks` as numbers. */
  function AsNumbers(ks: seq<nat>): (r: seq<Endpoint>)
    ensures |r| == |ks| && forall n :: 0 <= n < |ks| ==> r[n] == Number(ks[n])
  {
    seq(|ks|, n requires 0 <= n < |ks| => Number(ks[n]))
  }

  /** `new_accept` of lines 43-49: the subsets holding an accepting name, in subset-list order. */
  method AcceptingSubsets(L: seq<seq<StateName>>, accepts: seq<StateName>) returns (newAccept: seq<Endpoint>)
    ensures newAccept == AsSubsets(L, AcceptingIn(L, accepts, 0, |L|))
  {
    newAccept := [];
    for j := 0 to |L|
      invariant newAccept == AsSubsets(L, AcceptingIn(L, accepts, 0, j))
    {
      var s := L[j];
      var isAccept := false;
      for i := 0 to |s|
        invariant isAccept <==> exists k :: 0 <= k < i && s[k] in accepts
      {
        if s[i] in accepts {
          isAccept := true;
        }
      }
      assert isAccept <==> HasAccepting(s, accepts);
      if isAccept {
        newAccept := newAccept + [Subset(s)];
      }
      assert AsSubsets(L, AcceptingIn(L, accepts, 0, j + 1)) == newAccept;
    }
  }

  // ---------------------------------------------------------------------
  // Transitions (lines 52-70)
  // ---------------------------------------------------------------------

  /** The names the subset `from` reaches on `symbol`: the union of its members' targets. */
  ghost function TargetSet(a: ListAutomaton, from: seq<StateName>, symbol: Symbol): set<StateName>
  {
    set s, t | s in from && t in TargetsIn(a.transitions, s, symbol) :: t
  }

  /** The union over one more member is the union so far and that member's targets. */
  lemma {:induction false} TargetSetSnoc(a: ListAutomaton, from: seq<StateName>, p: nat, symbol: Symbol)
    requires p < |from|
    ensures TargetSet(a, from[..p + 1], symbol) ==
      TargetSet(a, from[..p], symbol) + Elements(TargetsIn(a.transitions, from[p], symbol))
  {
    assert from[..p + 1] == from[..p] + [from[p]];
  }

  /** `to_state` after line 63: the sorted list of `TargetSet`. */
  ghost function TargetList(a: ListAutomaton, from: seq<StateName>, symbol: Symbol): (r: seq<StateName>)
    ensures StrictlySorted(r) && Elements(r) == TargetSet(a, from, symbol)
  {
    SortedListing(TargetSet(a, from, symbol))
  }

  /**
    `to_state` of lines 55-63: every target of every member of `from` on
    `alpha`, each once, then sorted.
  */
  method ToState(a: ListAutomaton, from: seq<StateName>, alpha: Symbol) returns (toState: seq<StateName>)
    requires forall s :: s in from ==> s in a.states
    ensures toState == TargetList(a, from, alpha)
  {
    toState := [];
    for p := 0 to |from|
      invariant NoDuplicates(toState) && Elements(toState) == TargetSet(a, from[..p], alpha)
    {
      var terminal := Step(a, from[p], alpha);
      StepTargets(a, from[p], alpha);
      if terminal.Some? {
        ghost var before := toState;
        for q := 0 to |terminal.value|
          invariant NoDuplicates(toState)
          invariant Elements(toState) == Elements(before) + Elements(terminal.value[..q])
        {
          var t := terminal.value[q];
          ElementsPrefix(terminal.value, q);
          AppendIfAbsent(toState, t);
          if t !in toState {
            toState := toState + [t];
          }
        }
        assert terminal.value[..|terminal.value|] == terminal.value;
      }
      TargetSetSnoc(a, from, p, alpha);
    }
    assert from[..|from|] == from;
    SortNoDuplicates(toState);
    toState := Sort(toState);
    StrictlySortedUnique(toState, TargetList(a, from, alpha));
  }

  /** Every name of every entry of `L` is listed among `states`. */
  predicate EntriesListed(L: seq<seq<StateName>>, states: seq<StateName>)
  {
    forall t, x :: t in L && x in t ==> x in states
  }

  /** The sorted target list of a subset is itself an entry of a complete subset list. */
  lemma {:induction false} TargetListListed(a: ListAutomaton, L: seq<seq<StateName>>, from: seq<StateName>, symbol: Symbol)
    requires SubsetReady(a) && SubsetListShape(L, a.states) && ClosedUnderExtension(L, a.states)
    ensures TargetList(a, from, symbol) in L
  {
    var t := TargetList(a, from, symbol);
    forall x | x in t ensures x in a.states {
      assert x in TargetSet(a, from, symbol);
      var s :| s in from && x in TargetsIn(a.transitions, s, symbol);
      TargetsInMembers(a.transitions, s, symbol, x);
    }
    SubsetListComplete(L, a.states, t);
  }

  /** The triples of lines 66-70 for the subset `from`, one per symbol of `symbols`, in order. */
  ghost function SubsetRow(a: ListAutomaton, from: seq<StateName>, symbols: seq<Symbol>): seq<SubsetTriple>
    decreases |symbols|
  {
    if symbols == [] then []
    else
      var alpha := symbols[|symbols| - 1];
      SubsetRow(a, from, symbols[..|symbols| - 1]) + [SubsetTriple(Subset(from), [alpha], Subset(TargetList(a, from, alpha)))]
  }

  /** The triples for the first `j` subsets of `L`, in order. */
  ghost function SubsetRows(a: ListAutomaton, L: seq<seq<StateName>>, j: nat): seq<SubsetTriple>
    requires j <= |L|
  {
    if j == 0 then [] else SubsetRows(a, L, j - 1) + SubsetRow(a, L[j - 1], a.alphabet)
  }

  /** One more symbol of a row. */
  lemma {:induction false} SubsetRowSnoc(a: ListAutomaton, from: seq<StateName>, symbols: seq<Symbol>, k: nat)
    requires k < |symbols|
    ensures SubsetRow(a, from, symbols[..k + 1]) ==
      SubsetRow(a, from, symbols[..k]) + [SubsetTriple(Subset(from), [symbols[k]], Subset(TargetList(a, from, symbols[k])))]
  {
    assert symbols[..k + 1][..k] == symbols[..k];
  }

  /** Lines 54-70 for one subset: a triple to the target list on every symbol, in alphabet order. */
  method SubsetRowOf(a: ListAutomaton, from: seq<StateName>) returns (row: seq<SubsetTriple>)
    requires forall s :: s in from ==> s in a.states
    ensures row == SubsetRow(a, from, a.alphabet)
  {
    row := [];
    for k := 0 to |a.alphabet|
      invariant row == SubsetRow(a, from, a.alphabet[..k])
    {
      var alpha := a.alphabet[k];
      var toState := ToState(a, from, alpha);
      SubsetRowSnoc(a, from, a.alphabet, k);
      row := row + [SubsetTriple(Subset(from), [alpha], Subset(toState))];
    }
    assert a.alphabet[..|a.alphabet|] == a.alphabet;
  }

  /** `new_transitions` of lines 52-70: for each subset and each symbol, one triple to the target list. */
  method SubsetTransitions(a: ListAutomaton, L: seq<seq<StateName>>) returns (ts: seq<SubsetTriple>)
    requires EntriesListed(L, a.states)
    ensures ts == SubsetRows(a, L, |L|)
  {
    ts := [];
    for j := 0 to |L|
      invariant ts == SubsetRows(a, L, j)
    {
      assert L[j] in L;
      var row := SubsetRowOf(a, L[j]);
      ts := ts + row;
    }
  }

  // ---------------------------------------------------------------------
  // Renaming (lines 75-89)
  // ---------------------------------------------------------------------

  /** How the subset `s` reads once the first `c` entries of `L` have been numbered. */
  function RenamedEnd(L: seq<seq<StateName>>, c: nat, s: seq<StateName>): Endpoint
    requires c <= |L|
  {
    if s in L[..c] then Number(IndexOf(L, s)) else Subset(s)
  }

  /** An endpoint once the first `c` entries of `L` have been numbered. */
  function RenamedEndpoint(L: seq<seq<StateName>>, c: nat, e: Endpoint): Endpoint
    requires c <= |L|
  {
    match e
    case Subset(s) => RenamedEnd(L, c, s)
    case Number(_) => e
  }

  /** A triple once the first `c` entries of `L` have been numbered. */
  function RenamedTriple(L: seq<seq<StateName>>, c: nat, t: SubsetTriple): SubsetTriple
    requires c <= |L|
  {
    SubsetTriple(RenamedEndpoint(L, c, t.from), t.symbols, RenamedEndpoint(L, c, t.to))
  }

  /** Lines 84-85 for the subset `x` and the counter `c`: an end equal to `x` becomes `c`. */
  function StepEnd(e: Endpoint, x: seq<StateName>, c: nat): Endpoint
  {
    if e == Subset(x) then Number(c) else e
  }

  /** Renaming `L[c]` to `c` after the first `c` entries gives the first `c + 1` entries renamed. */
  lemma {:induction false} RenameStep(L: seq<seq<StateName>>, c: nat, e: Endpoint)
    requires NoDuplicates(L) && c < |L|
    ensures StepEnd(RenamedEndpoint(L, c, e), L[c], c) == RenamedEndpoint(L, c + 1, e)
  {
    assert L[..c + 1] == L[..c] + [L[c]];
    if e.Subset? && e.names == L[c] {
      IndexOfUnique(L, c);
    }
  }

  /** `AsSubsets` of a list with a first element. */
  lemma {:induction false} AsSubsetsCons(L: seq<seq<StateName>>, k: nat, ks: seq<nat>)
    requires k < |L| && forall n :: 0 <= n < |ks| ==> ks[n] < |L|
    ensures AsSubsets(L, [k] + ks) == [Subset(L[k])] + AsSubsets(L, ks)
  {
  }

  /** `AsNumbers` of a list with a last element. */
  lemma {:induction false} AsNumbersSnoc(ks: seq<nat>, k: nat)
    ensures AsNumbers(ks + [k]) == AsNumbers(ks) + [Number(k)]
  {
  }

  /** The renaming step for an accepting `L[c]`: it leaves the front and joins the numbers. */
  lemma {:induction false} AcceptStepHit(L: seq<seq<StateName>>, c: nat, rest: seq<nat>, done: seq<nat>, newAccept: seq<Endpoint>)
    requires c < |L| && forall n :: 0 <= n < |rest| ==> rest[n] < |L|
    requires newAccept == AsSubsets(L, [c] + rest) + AsNumbers(done)
    ensures Subset(L[c]) in newAccept
    ensures RemoveFirst(newAccept, Subset(L[c])) + [Number(c)] == AsSubsets(L, rest) + AsNumbers(done + [c])
  {
    AsSubsetsCons(L, c, rest);
    AsNumbersSnoc(done, c);
    ConcatAssociative([Subset(L[c])], AsSubsets(L, rest), AsNumbers(done));
    assert newAccept[0] == Subset(L[c]);
    assert newAccept[1..] == AsSubsets(L, rest) + AsNumbers(done);
    ConcatAssociative(AsSubsets(L, rest), AsNumbers(done), [Number(c)]);
  }

  /** The renaming step for a non-accepting `L[c]`: the subset is not in the list. */
  lemma {:induction false} AcceptStepMiss(L: seq<seq<StateName>>, c: nat, rest: seq<nat>, done: seq<nat>, newAccept: seq<Endpoint>)
    requires NoDuplicates(L) && c < |L| && forall n :: 0 <= n < |rest| ==> c < rest[n] < |L|
    requires newAccept == AsSubsets(L, rest) + AsNumbers(done)
    ensures Subset(L[c]) !in newAccept
  {
    forall k | 0 <= k < |newAccept| ensures newAccept[k] != Subset(L[c]) {
      if k < |rest| {
        assert newAccept[k] == Subset(L[rest[k]]);
      } else {
        assert newAccept[k] == Number(done[k - |rest|]);
      }
    }
  }

  /** Renaming `L[c]` to `c` in a triple renamed up to `c` gives it renamed up to `c + 1`. */
  lemma {:induction false} TripleStep(L: seq<seq<StateName>>, c: nat, t: SubsetTriple)
    requires NoDuplicates(L) && c < |L|
    ensures var r := RenamedTriple(L, c, t);
      SubsetTriple(StepEnd(r.from, L[c], c), r.symbols, StepEnd(r.to, L[c], c)) == RenamedTriple(L, c + 1, t)
  {
    RenameStep(L, c, t.from);
    RenameStep(L, c, t.to);
  }

  /** The accept list before and after the renaming step for `L[c]`. */
  lemma {:induction false} AcceptStep(L: seq<seq<StateName>>, accepts: seq<StateName>, c: nat, newAccept: seq<Endpoint>)
    requires NoDuplicates(L) && c < |L|
    requires newAccept == AsSubsets(L, AcceptingIn(L, accepts, c, |L|)) + AsNumbers(AcceptingIn(L, accepts, 0, c))
    ensures (if Subset(L[c]) in newAccept then RemoveFirst(newAccept, Subset(L[c])) + [Number(c)] else newAccept)
      == AsSubsets(L, AcceptingIn(L, accepts, c + 1, |L|)) + AsNumbers(AcceptingIn(L, accepts, 0, c + 1))
  {
    AcceptingInFront(L, accepts, c, |L|);
    var rest := AcceptingIn(L, accepts, c + 1, |L|);
    var done := AcceptingIn(L, accepts, 0, c);
    if HasAccepting(L[c], accepts) {
      assert AcceptingIn(L, accepts, 0, c + 1) == done + [c];
      AcceptStepHit(L, c, rest, done, newAccept);
    } else {
      assert AcceptingIn(L, accepts, c, |L|) == rest;
      assert AcceptingIn(L, accepts, 0, c + 1) == done;
      AcceptStepMiss(L, c, rest, done, newAccept);
    }
  }

  /** `ts` is `ts0` with the first `c` entries of `L` renamed to their positions. */
  ghost predicate RenamedUpTo(L: seq<seq<StateName>>, c: nat, ts0: seq<SubsetTriple>, ts: seq<SubsetTriple>)
    requires c <= |L|
  {
    |ts| == |ts0| && forall k :: 0 <= k < |ts0| ==> ts[k] == RenamedTriple(L, c, ts0[k])
  }

  /** The inner loop of lines 83-85: both ends equal to `L[c]` become `c`. */
  method RenameInTriples(L: seq<seq<StateName>>, c: nat, ghost ts0: seq<SubsetTriple>, ts: seq<SubsetTriple>)
      returns (ts': seq<SubsetTriple>)
    requires NoDuplicates(L) && c < |L|
    requires RenamedUpTo(L, c, ts0, ts)
    ensures RenamedUpTo(L, c + 1, ts0, ts')
  {
    var x := L[c];
    ts' := ts;
    for k := 0 to |ts'|
      invariant |ts'| == |ts0|
      invariant forall k' :: 0 <= k' < k ==> ts'[k'] == RenamedTriple(L, c + 1, ts0[k'])
      invariant forall k' :: k <= k' < |ts0| ==> ts'[k'] == RenamedTriple(L, c, ts0[k'])
    {
      var t := ts'[k];
      TripleStep(L, c, ts0[k]);
      if t.from == Subset(x) {
        t := t.(from := Number(c));
      }
      if t.to == Subset(x) {
        t := t.(to := Number(c));
      }
      ts' := ts'[k := t];
    }
  }

  /**
    The renaming loop of lines 75-87: the `c`th subset becomes the number
    `c` in the start list, in the accept list and at both ends of every
    triple.
  */
  method Renumber(L: seq<seq<StateName>>, ghost accepts: seq<StateName>, ghost start: seq<StateName>,
                  newStart0: seq<Endpoint>, newAccept0: seq<Endpoint>, ts0: seq<SubsetTriple>)
      returns (newStart: seq<Endpoint>, newAccept: seq<Endpoint>, ts: seq<SubsetTriple>)
    requires NoDuplicates(L)
    requires newStart0 == [Subset(start)]
    requires newAccept0 == AsSubsets(L, AcceptingIn(L, accepts, 0, |L|))
    ensures newStart == [RenamedEnd(L, |L|, start)]
    ensures newAccept == AsNumbers(AcceptingIn(L, accepts, 0, |L|))
    ensures RenamedUpTo(L, |L|, ts0, ts)
  {
    newStart, newAccept, ts := newStart0, newAccept0, ts0;
    assert newAccept == AsSubsets(L, AcceptingIn(L, accepts, 0, |L|)) + AsNumbers(AcceptingIn(L, accepts, 0, 0));
    var counter := 0;
    for c := 0 to |L|
      invariant counter == c
      invariant newStart == [RenamedEnd(L, c, start)]
      invariant newAccept == AsSubsets(L, AcceptingIn(L, accepts, c, |L|)) + AsNumbers(AcceptingIn(L, accepts, 0, c))
      invariant RenamedUpTo(L, c, ts0, ts)
    {
      var x := L[c];
      RenameStep(L, c, Subset(start));
      if Subset(x) in newStart {
        newStart := RemoveFirst(newStart, Subset(x)) + [Number(counter)];
      }
      AcceptStep(L, accepts, c, newAccept);
      if Subset(x) in newAccept {
        newAccept := RemoveFirst(newAccept, Subset(x)) + [Number(counter)];
      }
      ts := RenameInTriples(L, c, ts0, ts);
      counter := counter + 1;
    }
    assert AcceptingIn(L, accepts, |L|, |L|) == [];
  }

  // ---------------------------------------------------------------------
  // The determinised automaton, stated by positions in the subset list
  // ---------------------------------------------------------------------

  /** `L` is a complete subset list of `a`, and `a` can be determinised. */
  ghost predicate Ready(a: ListAutomaton, L: seq<seq<StateName>>)
  {
    SubsetReady(a) && SubsetListShape(L, a.states) && ClosedUnderExtension(L, a.states)
  }

  /** The sorted start list is an entry of a complete subset list. */
  lemma {:induction false} StartListed(a: ListAutomaton, L: seq<seq<StateName>>)
    requires Ready(a, L)
    ensures Sort(a.start) in L
  {
    SortNoDuplicates(a.start);
    forall x | x in Sort(a.start) ensures x in a.states {
      assert x in Elements(Sort(a.start));
    }
    SubsetListComplete(L, a.states, Sort(a.start));
  }

  /** What the numbering needs of `L`: no entry twice, and the start list and every target list among the entries. */
  ghost predicate Listing(a: ListAutomaton, L: seq<seq<StateName>>)
  {
    && NoDuplicates(L)
    && Sort(a.start) in L
    && forall from, symbol :: TargetList(a, from, symbol) in L
  }

  lemma {:induction false} ReadyListing(a: ListAutomaton, L: seq<seq<StateName>>)
    requires Ready(a, L)
    ensures Listing(a, L)
  {
    StartListed(a, L);
    forall from, symbol ensures TargetList(a, from, symbol) in L {
      TargetListListed(a, L, from, symbol);
    }
  }

  /** The position in `L` of the subset reached from `from` on `symbol`. */
  ghost function TargetIndex(a: ListAutomaton, L: seq<seq<StateName>>, from: seq<StateName>, symbol: Symbol): (i: nat)
    requires Listing(a, L)
    ensures i < |L| && L[i] == TargetList(a, from, symbol)
  {
    IndexOf(L, TargetList(a, from, symbol))
  }

  // ---------------------------------------------------------------------
  // Automata given by a transition table
  // ---------------------------------------------------------------------

  /** Row `j` of a transition table: state `j` goes on `symbols[k]` to state `row[k]`. */
  function TableRow(j: nat, symbols: seq<Symbol>, row: seq<nat>): seq<Triple>
    requires |row| == |symbols|
    decreases |symbols|
  {
    if symbols == [] then []
    else
      var n := |symbols| - 1;
      TableRow(j, symbols[..n], row[..n]) + [Triple(Numbered(j), [symbols[n]], Numbered(row[n]))]
  }

  /** Every row of `table` has `width` entries. */
  ghost predicate Rectangular(table: seq<seq<nat>>, width: nat)
  {
    forall i :: 0 <= i < |table| ==> |table[i]| == width
  }

  /** Every entry of `table` is below `n`. */
  ghost predicate Bounded(table: seq<seq<nat>>, n: nat)
  {
    forall i, k :: 0 <= i < |table| && 0 <= k < |table[i]| ==> table[i][k] < n
  }

  /** The rows `0 .. j - 1` of a transition table, in order. */
  function TableRows(table: seq<seq<nat>>, symbols: seq<Symbol>, j: nat): seq<Triple>
    requires j <= |table| && Rectangular(table, |symbols|)
  {
    if j == 0 then [] else TableRows(table, symbols, j - 1) + TableRow(j - 1, symbols, table[j - 1])
  }

  /** A row has no target for another state. */
  lemma {:induction false} TableRowOther(j: nat, symbols: seq<Symbol>, row: seq<nat>, q: StateName, symbol: Symbol)
    requires |row| == |symbols| && q != Numbered(j)
    ensures NoTargets(TableRow(j, symbols, row), q, symbol)
    decreases |symbols|
  {
    if symbols != [] {
      var n := |symbols| - 1;
      TableRowOther(j, symbols[..n], row[..n], q, symbol);
      var t := Triple(Numbered(j), [symbols[n]], Numbered(row[n]));
      assert NoTargets([t], q, symbol);
      NoTargetsAppend(TableRow(j, symbols[..n], row[..n]), [t], q, symbol);
    }
  }

  /** A row has no target for a symbol it does not list. */
  lemma {:induction false} TableRowUnlisted(j: nat, symbols: seq<Symbol>, row: seq<nat>, q: StateName, symbol: Symbol)
    requires |row| == |symbols| && symbol !in symbols
    ensures NoTargets(TableRow(j, symbols, row), q, symbol)
    decreases |symbols|
  {
    if symbols != [] {
      var n := |symbols| - 1;
      assert symbols == symbols[..n] + [symbols[n]];
      TableRowUnlisted(j, symbols[..n], row[..n], q, symbol);
      var t := Triple(Numbered(j), [symbols[n]], Numbered(row[n]));
      assert NoTargets([t], q, symbol);
      NoTargetsAppend(TableRow(j, symbols[..n], row[..n]), [t], q, symbol);
    }
  }

  /** `symbol` is `symbols[k]` and no other entry of `symbols`. */
  ghost predicate OnlyAt(symbols: seq<Symbol>, k: nat, symbol: Symbol)
  {
    k < |symbols| && symbols[k] == symbol && forall m :: 0 <= m < |symbols| && m != k ==> symbols[m] != symbol
  }

  /** In a list without duplicates, a member occurs only at its index. */
  lemma {:induction false} OnlyAtIndexOf(symbols: seq<Symbol>, symbol: Symbol)
    requires NoDuplicates(symbols) && symbol in symbols
    ensures OnlyAt(symbols, IndexOf(symbols, symbol), symbol)
  {
    IndexOfUnique(symbols, IndexOf(symbols, symbol));
  }

  /** The last symbol of a row, listed nowhere before, leads to the row's last entry. */
  lemma {:induction false} RowHitLast(j: nat, symbols: seq<Symbol>, row: seq<nat>, symbol: Symbol)
    requires 0 < |symbols| && |row| == |symbols|
    requires symbols[|symbols| - 1] == symbol && symbol !in symbols[..|symbols| - 1]
    ensures Yields(TableRow(j, symbols, row), Numbered(j), symbol, Numbered(row[|symbols| - 1]))
  {
    var n := |symbols| - 1;
    var t := Triple(Numbered(j), [symbols[n]], Numbered(row[n]));
    TableRowUnlisted(j, symbols[..n], row[..n], Numbered(j), symbol);
    assert Yields([t], Numbered(j), symbol, t.to);
    YieldsAfter(TableRow(j, symbols[..n], row[..n]), [t], Numbered(j), symbol, t.to);
  }

  /** A symbol other than the last leads to what it leads to in the row without its last entry. */
  lemma {:induction false} RowHitEarlier(j: nat, symbols: seq<Symbol>, row: seq<nat>, symbol: Symbol, x: StateName)
    requires 0 < |symbols| && |row| == |symbols| && symbols[|symbols| - 1] != symbol
    requires Yields(TableRow(j, symbols[..|symbols| - 1], row[..|symbols| - 1]), Numbered(j), symbol, x)
    ensures Yields(TableRow(j, symbols, row), Numbered(j), symbol, x)
  {
    var n := |symbols| - 1;
    var t := Triple(Numbered(j), [symbols[n]], Numbered(row[n]));
    TargetsInSingle(t, Numbered(j), symbol);
    YieldsBefore(TableRow(j, symbols[..n], row[..n]), [t], Numbered(j), symbol, x);
  }

  /** In its own row, a state goes on a symbol listed only at `k` to the row's entry `k`. */
  lemma {:induction false} TableRowHit(j: nat, symbols: seq<Symbol>, row: seq<nat>, k: nat, symbol: Symbol)
    requires |row| == |symbols| && OnlyAt(symbols, k, symbol)
    ensures Yields(TableRow(j, symbols, row), Numbered(j), symbol, Numbered(row[k]))
    decreases |symbols|
  {
    var n := |symbols| - 1;
    if k == n {
      assert symbol !in symbols[..n] by {
        forall m | 0 <= m < n ensures symbols[..n][m] != symbol {
          assert symbols[..n][m] == symbols[m];
        }
      }
      RowHitLast(j, symbols, row, symbol);
    } else {
      assert OnlyAt(symbols[..n], k, symbol) by {
        forall m | 0 <= m < n && m != k ensures symbols[..n][m] != symbol {
          assert symbols[..n][m] == symbols[m];
        }
      }
      TableRowHit(j, symbols[..n], row[..n], k, symbol);
      assert row[..n][k] == row[k];
      RowHitEarlier(j, symbols, row, symbol, Numbered(row[k]));
    }
  }

  /** A table automaton has no target for a state outside its first `j` rows. */
  lemma {:induction false} TableRowsMiss(table: seq<seq<nat>>, symbols: seq<Symbol>, j: nat, i: nat, symbol: Symbol)
    requires j <= |table| && Rectangular(table, |symbols|) && j <= i
    ensures NoTargets(TableRows(table, symbols, j), Numbered(i), symbol)
  {
    if j > 0 {
      TableRowsMiss(table, symbols, j - 1, i, symbol);
      TableRowOther(j - 1, symbols, table[j - 1], Numbered(i), symbol);
      NoTargetsAppend(TableRows(table, symbols, j - 1), TableRow(j - 1, symbols, table[j - 1]), Numbered(i), symbol);
    }
  }

  /** What the last row yields, the whole table yields. */
  lemma {:induction false} HitLastRow(table: seq<seq<nat>>, symbols: seq<Symbol>, j: nat, symbol: Symbol, x: StateName)
    requires 0 < j <= |table| && Rectangular(table, |symbols|)
    requires Yields(TableRow(j - 1, symbols, table[j - 1]), Numbered(j - 1), symbol, x)
    ensures Yields(TableRows(table, symbols, j), Numbered(j - 1), symbol, x)
  {
    TableRowsMiss(table, symbols, j - 1, j - 1, symbol);
    YieldsAfter(TableRows(table, symbols, j - 1), TableRow(j - 1, symbols, table[j - 1]), Numbered(j - 1), symbol, x);
  }

  /** Another row added below leaves an earlier state's target as it is. */
  lemma {:induction false} HitEarlierRow(table: seq<seq<nat>>, symbols: seq<Symbol>, j: nat, i: nat, symbol: Symbol, x: StateName)
    requires 0 < j <= |table| && Rectangular(table, |symbols|) && i < j - 1
    requires Yields(TableRows(table, symbols, j - 1), Numbered(i), symbol, x)
    ensures Yields(TableRows(table, symbols, j), Numbered(i), symbol, x)
  {
    TableRowOther(j - 1, symbols, table[j - 1], Numbered(i), symbol);
    YieldsBefore(TableRows(table, symbols, j - 1), TableRow(j - 1, symbols, table[j - 1]), Numbered(i), symbol, x);
  }

  /** In a table automaton, state `i` goes on a symbol listed only at `k` to the table's entry `k` of row `i`. */
  lemma {:induction false} TableRowsHit(table: seq<seq<nat>>, symbols: seq<Symbol>, j: nat, i: nat, k: nat, symbol: Symbol)
    requires j <= |table| && Rectangular(table, |symbols|) && OnlyAt(symbols, k, symbol) && i < j
    ensures Yields(TableRows(table, symbols, j), Numbered(i), symbol, Numbered(table[i][k]))
  {
    if i == j - 1 {
      TableRowHit(i, symbols, table[i], k, symbol);
      HitLastRow(table, symbols, j, symbol, Numbered(table[i][k]));
    } else {
      TableRowsHit(table, symbols, j - 1, i, k, symbol);
      HitEarlierRow(table, symbols, j, i, symbol, Numbered(table[i][k]));
    }
  }

  /** Every triple of `ts` goes from a number below `j` to a number below `n`. */
  ghost predicate NumberedBelow(ts: seq<Triple>, j: nat, n: nat)
  {
    forall k :: 0 <= k < |ts| ==>
      ts[k].from.Numbered? && ts[k].from.index < j && ts[k].to.Numbered? && ts[k].to.index < n
  }

  lemma {:induction false} NumberedBelowAppend(xs: seq<Triple>, ys: seq<Triple>, i: nat, j: nat, n: nat)
    requires i <= j && NumberedBelow(xs, i, n) && NumberedBelow(ys, j, n)
    ensures NumberedBelow(xs + ys, j, n)
  {
    forall k | 0 <= k < |xs + ys| ensures (xs + ys)[k] == if k < |xs| then xs[k] else ys[k - |xs|] {
    }
  }

  lemma {:induction false} TableRowBelow(j: nat, symbols: seq<Symbol>, row: seq<nat>, n: nat)
    requires |row| == |symbols| && forall k :: 0 <= k < |row| ==> row[k] < n
    ensures NumberedBelow(TableRow(j, symbols, row), j + 1, n)
    decreases |symbols|
  {
    if symbols != [] {
      var m := |symbols| - 1;
      TableRowBelow(j, symbols[..m], row[..m], n);
      NumberedBelowAppend(TableRow(j, symbols[..m], row[..m]), [Triple(Numbered(j), [symbols[m]], Numbered(row[m]))], j + 1, j + 1, n);
    }
  }

  /** A table automaton with entries below `n` has its triples between the states `0 .. n - 1`. */
  lemma {:induction false} TableRowsBelow(table: seq<seq<nat>>, symbols: seq<Symbol>, j: nat, n: nat)
    requires j <= |table| && Rectangular(table, |symbols|) && Bounded(table, n)
    ensures NumberedBelow(TableRows(table, symbols, j), j, n)
  {
    if j > 0 {
      TableRowsBelow(table, symbols, j - 1, n);
      TableRowBelow(j - 1, symbols, table[j - 1], n);
      NumberedBelowAppend(TableRows(table, symbols, j - 1), TableRow(j - 1, symbols, table[j - 1]), j - 1, j, n);
    }
  }

  // ---------------------------------------------------------------------
  // The table of the determinised automaton
  // ---------------------------------------------------------------------

  /** The positions of the subsets `from` reaches on each of `symbols`. */
  ghost function TargetRow(a: ListAutomaton, L: seq<seq<StateName>>, from: seq<StateName>, symbols: seq<Symbol>): (r: seq<nat>)
    requires Listing(a, L)
    ensures |r| == |symbols|
  {
    seq(|symbols|, k requires 0 <= k < |symbols| => TargetIndex(a, L, from, symbols[k]))
  }

  /** Row `i` holds the positions the subset `L[i]` reaches on each alphabet symbol. */
  ghost function TargetTable(a: ListAutomaton, L: seq<seq<StateName>>): (t: seq<seq<nat>>)
    requires Listing(a, L)
    ensures |t| == |L| && Rectangular(t, |a.alphabet|)
    ensures forall i :: 0 <= i < |L| ==> t[i] == TargetRow(a, L, L[i], a.alphabet)
  {
    seq(|L|, i requires 0 <= i < |L| => TargetRow(a, L, L[i], a.alphabet))
  }

  /** The names `0, 1, ..., n - 1` of line 89. */
  function Numbers(n: nat): (r: seq<StateName>)
    ensures |r| == n && forall i :: 0 <= i < n ==> r[i] == Numbered(i)
  {
    seq(n, i requires 0 <= i < n => Numbered(i))
  }

  /** The positions `ks` as state names. */
  function NumberedAt(ks: seq<nat>): (r: seq<StateName>)
    ensures |r| == |ks| && forall n :: 0 <= n < |ks| ==> r[n] == Numbered(ks[n])
  {
    seq(|ks|, n requires 0 <= n < |ks| => Numbered(ks[n]))
  }

  /**
    What `determinis` returns for `a` with the subset list `L`: state `i`
    stands for the subset `L[i]`, the start is the position of the sorted
    start list, the accepting states are the positions of subsets holding an
    accepting name, and state `i` goes on each symbol to the position of the
    sorted list of every successor of `L[i]`.
  */
  ghost function Determinized(a: ListAutomaton, L: seq<seq<StateName>>): ListAutomaton
    requires Listing(a, L)
  {
    Automaton(Numbers(|L|), [Numbered(IndexOf(L, Sort(a.start)))], NumberedAt(AcceptingIn(L, a.accepts, 0, |L|)),
              TableRows(TargetTable(a, L), a.alphabet, |L|), a.alphabet)
  }

  // ---------------------------------------------------------------------
  // From the renamed triples to the positional ones
  // ---------------------------------------------------------------------

  /** Both ends of `t` are subsets listed in `L`. */
  predicate EndsListed(L: seq<seq<StateName>>, t: SubsetTriple)
  {
    t.from.Subset? && t.from.names in L && t.to.Subset? && t.to.names in L
  }

  /** The triple `t` with both subsets replaced by their positions in `L`. */
  function Positional(L: seq<seq<StateName>>, t: SubsetTriple): Triple
    requires EndsListed(L, t)
  {
    Triple(Numbered(IndexOf(L, t.from.names)), t.symbols, Numbered(IndexOf(L, t.to.names)))
  }

  /** The subset triples `ts` read positionally are the triples `ds`. */
  ghost predicate Agree(L: seq<seq<StateName>>, ts: seq<SubsetTriple>, ds: seq<Triple>)
  {
    |ts| == |ds| && forall k :: 0 <= k < |ts| ==> EndsListed(L, ts[k]) && Positional(L, ts[k]) == ds[k]
  }

  lemma {:induction false} AgreeAppend(L: seq<seq<StateName>>, ts1: seq<SubsetTriple>, ds1: seq<Triple>, ts2: seq<SubsetTriple>, ds2: seq<Triple>)
    requires Agree(L, ts1, ds1) && Agree(L, ts2, ds2)
    ensures Agree(L, ts1 + ts2, ds1 + ds2)
  {
    forall k | 0 <= k < |ts1 + ts2|
      ensures EndsListed(L, (ts1 + ts2)[k]) && Positional(L, (ts1 + ts2)[k]) == (ds1 + ds2)[k]
    {
      if k >= |ts1| {
        assert (ts1 + ts2)[k] == ts2[k - |ts1|] && (ds1 + ds2)[k] == ds2[k - |ts1|];
      }
    }
  }

  /** The row of subset `L[j]` read positionally is row `j` of the table. */
  lemma {:induction false} RowAgree(a: ListAutomaton, L: seq<seq<StateName>>, j: nat, symbols: seq<Symbol>)
    requires Listing(a, L) && j < |L|
    ensures Agree(L, SubsetRow(a, L[j], symbols), TableRow(j, symbols, TargetRow(a, L, L[j], symbols)))
    decreases |symbols|
  {
    if symbols != [] {
      var n := |symbols| - 1;
      var alpha := symbols[n];
      var row := TargetRow(a, L, L[j], symbols);
      RowAgree(a, L, j, symbols[..n]);
      assert row[..n] == TargetRow(a, L, L[j], symbols[..n]);
      var t := SubsetTriple(Subset(L[j]), [alpha], Subset(TargetList(a, L[j], alpha)));
      var i := TargetIndex(a, L, L[j], alpha);
      IndexOfUnique(L, j);
      IndexOfUnique(L, i);
      assert Agree(L, [t], [Triple(Numbered(j), [alpha], Numbered(row[n]))]);
      AgreeAppend(L, SubsetRow(a, L[j], symbols[..n]), TableRow(j, symbols[..n], row[..n]),
                  [t], [Triple(Numbered(j), [alpha], Numbered(row[n]))]);
    }
  }

  /** Row `j` of the subset triples read positionally is row `j` of the table. */
  lemma {:induction false} TableRowAgree(a: ListAutomaton, L: seq<seq<StateName>>, j: nat)
    requires Listing(a, L) && j < |L|
    ensures Agree(L, SubsetRow(a, L[j], a.alphabet), TableRow(j, a.alphabet, TargetTable(a, L)[j]))
  {
    RowAgree(a, L, j, a.alphabet);
  }

  /** A table whose rows read the subset rows positionally keeps doing so with one more row. */
  lemma {:induction false} RowsAgreeStep(a: ListAutomaton, L: seq<seq<StateName>>, table: seq<seq<nat>>, j: nat)
    requires 0 < j <= |L| && j <= |table| && Rectangular(table, |a.alphabet|)
    requires Agree(L, SubsetRows(a, L, j - 1), TableRows(table, a.alphabet, j - 1))
    requires Agree(L, SubsetRow(a, L[j - 1], a.alphabet), TableRow(j - 1, a.alphabet, table[j - 1]))
    ensures Agree(L, SubsetRows(a, L, j), TableRows(table, a.alphabet, j))
  {
    AgreeAppend(L, SubsetRows(a, L, j - 1), TableRows(table, a.alphabet, j - 1),
                SubsetRow(a, L[j - 1], a.alphabet), TableRow(j - 1, a.alphabet, table[j - 1]));
  }

  /** All subset rows read positionally are the table's rows. */
  lemma {:induction false} RowsAgree(a: ListAutomaton, L: seq<seq<StateName>>, j: nat)
    requires Listing(a, L) && j <= |L|
    ensures Agree(L, SubsetRows(a, L, j), TableRows(TargetTable(a, L), a.alphabet, j))
  {
    if j > 0 {
      RowsAgree(a, L, j - 1);
      TableRowAgree(a, L, j - 1);
      RowsAgreeStep(a, L, TargetTable(a, L), j);
    }
  }

  /** Once every entry is numbered, a listed subset reads as its position. */
  lemma {:induction false} RenamedListed(L: seq<seq<StateName>>, s: seq<StateName>)
    requires s in L
    ensures RenamedEnd(L, |L|, s) == Number(IndexOf(L, s))
  {
    assert L[..|L|] == L;
  }

  /** A numbered endpoint as a state name. */
  function EndName(e: Endpoint): StateName
    requires e.Number?
  {
    Numbered(e.n)
  }

  /** The numbered triples as triples between state names. */
  function NumberedTriples(ts: seq<SubsetTriple>): (r: seq<Triple>)
    requires forall k :: 0 <= k < |ts| ==> ts[k].from.Number? && ts[k].to.Number?
    ensures |r| == |ts|
  {
    seq(|ts|, k requires 0 <= k < |ts| => Triple(EndName(ts[k].from), ts[k].symbols, EndName(ts[k].to)))
  }

  /** The numbered endpoints as state names. */
  function EndNames(es: seq<Endpoint>): (r: seq<StateName>)
    requires forall k :: 0 <= k < |es| ==> es[k].Number?
    ensures |r| == |es|
  {
    seq(|es|, k requires 0 <= k < |es| => EndName(es[k]))
  }

  /** After the renaming, the subset rows are the positional rows. */
  lemma {:induction false} RenamedRows(a: ListAutomaton, L: seq<seq<StateName>>, ts: seq<SubsetTriple>)
    requires Listing(a, L) && RenamedUpTo(L, |L|, SubsetRows(a, L, |L|), ts)
    ensures forall k :: 0 <= k < |ts| ==> ts[k].from.Number? && ts[k].to.Number?
    ensures NumberedTriples(ts) == TableRows(TargetTable(a, L), a.alphabet, |L|)
  {
    var rows := SubsetRows(a, L, |L|);
    RowsAgree(a, L, |L|);
    forall k | 0 <= k < |ts|
      ensures ts[k].from.Number? && ts[k].to.Number?
      ensures Triple(EndName(ts[k].from), ts[k].symbols, EndName(ts[k].to)) == TableRows(TargetTable(a, L), a.alphabet, |L|)[k]
    {
      RenamedListed(L, rows[k].from.names);
      RenamedListed(L, rows[k].to.names);
    }
  }

  /** The renamed accept list as state names. */
  lemma {:induction false} RenamedAccepts(L: seq<seq<StateName>>, ks: seq<nat>)
    ensures EndNames(AsNumbers(ks)) == NumberedAt(ks)
  {
  }

  /** `new_new_states` of lines 88-89: the names `0 .. n - 1`. */
  method NewStates(n: nat) returns (states: seq<StateName>)
    ensures states == Numbers(n)
  {
    states := [];
    for i := 0 to n
      invariant states == Numbers(i)
    {
      states := states + [Numbered(i)];
    }
  }

  /**
    `determinis` (lines 19-94): the subset list, the start, the accepting
    subsets and the transitions between subsets, then the renaming of every
    subset to its position. `subsets` is the subset list the method builds.
  */
  method Determinis(a: ListAutomaton) returns (r: ListAutomaton, subsets: seq<seq<StateName>>)
    requires SubsetReady(a)
    ensures Ready(a, subsets) && Listing(a, subsets)
    ensures r == Determinized(a, subsets)
  {
    var L := SubsetList(a.states);
    subsets := L;
    var temp := Sort(a.start);
    var newStart := [Subset(temp)];
    var newAccept := AcceptingSubsets(L, a.accepts);
    var ts := SubsetTransitions(a, L);
    ghost var ts0 := ts;
    newStart, newAccept, ts := Renumber(L, a.accepts, temp, newStart, newAccept, ts);
    var states := NewStates(|L|);
    ReadyListing(a, L);
    RenamedListed(L, temp);
    RenamedRows(a, L, ts);
    RenamedAccepts(L, AcceptingIn(L, a.accepts, 0, |L|));
    assert EndNames(newStart) == [Numbered(IndexOf(L, Sort(a.start)))];
    assert EndNames(newAccept) == NumberedAt(AcceptingIn(L, a.accepts, 0, |L|));
    assert NumberedTriples(ts) == TableRows(TargetTable(a, L), a.alphabet, |L|);
    r := Automaton(states, EndNames(newStart), EndNames(newAccept), NumberedTriples(ts), a.alphabet);
  }

  // ---------------------------------------------------------------------
  // What the determinised automaton is
  // ---------------------------------------------------------------------

  /** The positions `r` ascend strictly. */
  ghost predicate Ascending(r: seq<nat>)
  {
    forall i, k :: 0 <= i < k < |r| ==> r[i] < r[k]
  }

  /** The accepting positions ascend strictly. */
  lemma {:induction false} AcceptingInAscending(L: seq<seq<StateName>>, accepts: seq<StateName>, lo: nat, hi: nat)
    requires lo <= hi <= |L|
    ensures Ascending(AcceptingIn(L, accepts, lo, hi))
    decreases hi
  {
    if lo < hi {
      AcceptingInAscending(L, accepts, lo, hi - 1);
      var init := AcceptingIn(L, accepts, lo, hi - 1);
      var last := if HasAccepting(L[hi - 1], accepts) then [hi - 1] else [];
      forall i, k | 0 <= i < k < |init + last| ensures (init + last)[i] < (init + last)[k] {
        if k >= |init| {
          assert (init + last)[k] == hi - 1 && (init + last)[i] == init[i];
          assert init[i] < hi - 1;
        } else {
          assert (init + last)[k] == init[k] && (init + last)[i] == init[i];
        }
      }
    }
  }

  /**
    On every state and every symbol of its alphabet, the determinised
    automaton has exactly one target: the position of the subset holding
    every successor of the state's subset.
  */
  lemma {:induction false} DeterminizedTargets(a: ListAutomaton, L: seq<seq<StateName>>, i: nat, symbol: Symbol)
    requires Listing(a, L) && NoDuplicates(a.alphabet) && i < |L| && symbol in a.alphabet
    ensures var ts := TargetsIn(Determinized(a, L).transitions, Numbered(i), symbol);
      |ts| == 1 && ts[0].Numbered? && ts[0].index < |L| && Elements(L[ts[0].index]) == TargetSet(a, L[i], symbol)
  {
    var table := TargetTable(a, L);
    var k := IndexOf(a.alphabet, symbol);
    OnlyAtIndexOf(a.alphabet, symbol);
    TableRowsHit(table, a.alphabet, |L|, i, k, symbol);
    assert table[i][k] == TargetIndex(a, L, L[i], symbol);
  }

  /** A state of the determinised automaton accepts exactly when its subset holds an accepting name. */
  lemma {:induction false} DeterminizedAccepts(a: ListAutomaton, L: seq<seq<StateName>>, i: nat)
    requires Listing(a, L) && i < |L|
    ensures Numbered(i) in Determinized(a, L).accepts <==> exists x :: x in L[i] && x in a.accepts
  {
    var ks := AcceptingIn(L, a.accepts, 0, |L|);
    AcceptingInMembers(L, a.accepts, 0, |L|, i);
    if Numbered(i) in NumberedAt(ks) {
      var n :| 0 <= n < |ks| && NumberedAt(ks)[n] == Numbered(i);
      assert ks[n] == i;
    }
  }

  /** The start state's subset holds exactly the start names. */
  lemma {:induction false} DeterminizedStart(a: ListAutomaton, L: seq<seq<StateName>>)
    requires Listing(a, L)
    ensures var d := Determinized(a, L);
      |d.start| == 1 && d.start[0].Numbered? && d.start[0].index < |L| && Elements(L[d.start[0].index]) == Elements(a.start)
  {
    SortElements(a.start);
  }

  /** The determinised automaton is well formed. */
  lemma {:induction false} DeterminizedWellFormed(a: ListAutomaton, L: seq<seq<StateName>>)
    requires Listing(a, L) && NoDuplicates(a.alphabet)
    ensures WellFormed(Determinized(a, L))
  {
    var d := Determinized(a, L);
    var table := TargetTable(a, L);
    AcceptingInAscending(L, a.accepts, 0, |L|);
    forall i, k | 0 <= i < |table| && 0 <= k < |table[i]| ensures table[i][k] < |L| {
      assert table[i][k] == TargetIndex(a, L, L[i], a.alphabet[k]);
    }
    TableRowsBelow(table, a.alphabet, |L|, |L|);
    forall q | q in d.accepts ensures q in d.states {
      var n :| 0 <= n < |d.accepts| && d.accepts[n] == q;
      assert d.states[q.index] == q;
    }
    forall k | 0 <= k < |d.transitions| ensures d.transitions[k].from in d.states && d.transitions[k].to in d.states {
      assert d.states[d.transitions[k].from.index] == d.transitions[k].from;
      assert d.states[d.transitions[k].to.index] == d.transitions[k].to;
    }
  }

  /** The determinised automaton is a complete DFA: one listed target per state and alphabet symbol. */
  lemma {:induction false} DeterminizedComplete(a: ListAutomaton, L: seq<seq<StateName>>)
    requires Listing(a, L) && NoDuplicates(a.alphabet)
    ensures CompleteDfa(Determinized(a, L))
  {
    var d := Determinized(a, L);
    forall q, symbol | q in d.states && symbol in a.alphabet
      ensures |TargetsIn(d.transitions, q, symbol)| == 1 && TargetsIn(d.transitions, q, symbol)[0] in d.states
    {
      var i :| 0 <= i < |L| && d.states[i] == q;
      DeterminizedTargets(a, L, i, symbol);
      var t := TargetsIn(d.transitions, q, symbol)[0];
      assert d.states[t.index] == t;
    }
  }

  // ---------------------------------------------------------------------
  // The reachable part (lines 96-120)
  // ---------------------------------------------------------------------

  /** `q` is a target of `p` on some symbol of the alphabet. */
  ghost predicate Arc(a: ListAutomaton, p: StateName, q: StateName)
  {
    exists symbol :: symbol in a.alphabet && q in TargetsIn(a.transitions, p, symbol)
  }

  /** `ps` starts at `x`, and every later entry is a target of an earlier one. */
  ghost predicate Discovered(a: ListAutomaton, x: StateName, ps: seq<StateName>)
  {
    && |ps| > 0 && ps[0] == x
    && forall i :: 0 < i < |ps| ==> exists j :: 0 <= j < i && Arc(a, ps[j], ps[i])
  }

  /** `q` is reached from `x` along transitions on alphabet symbols. */
  ghost predicate Reaches(a: ListAutomaton, x: StateName, q: StateName)
  {
    exists ps :: Discovered(a, x, ps) && q in ps
  }

  /** No transition on an alphabet symbol leads out of `c`. */
  ghost predicate ArcClosed(a: ListAutomaton, c: set<StateName>)
  {
    forall p, q :: p in c && Arc(a, p, q) ==> q in c
  }

  lemma {:induction false} DiscoveredReaches(a: ListAutomaton, x: StateName, ps: seq<StateName>, q: StateName)
    requires Discovered(a, x, ps) && q in ps
    ensures Reaches(a, x, q)
  {
  }

  /** A state reaches itself. */
  lemma {:induction false} ReachesItself(a: ListAutomaton, x: StateName)
    ensures Reaches(a, x, x)
  {
    assert Discovered(a, x, [x]);
  }

  /** A discovery order extended by a target of one of its states. */
  lemma {:induction false} DiscoveredSnoc(a: ListAutomaton, x: StateName, ps: seq<StateName>, p: StateName, q: StateName)
    requires Discovered(a, x, ps) && p in ps && Arc(a, p, q)
    ensures Discovered(a, x, ps + [q])
  {
    var qs := ps + [q];
    var j :| 0 <= j < |ps| && ps[j] == p;
    forall i | 0 < i < |qs| ensures exists j :: 0 <= j < i && Arc(a, qs[j], qs[i]) {
      if i == |ps| {
        assert qs[j] == p && qs[i] == q;
      } else {
        var j' :| 0 <= j' < i && Arc(a, ps[j'], ps[i]);
        assert qs[j'] == ps[j'] && qs[i] == ps[i];
      }
    }
  }

  /** Whatever a reached state leads to is reached too. */
  lemma {:induction false} ReachesStep(a: ListAutomaton, x: StateName, p: StateName, q: StateName)
    requires Reaches(a, x, p) && Arc(a, p, q)
    ensures Reaches(a, x, q)
  {
    var ps :| Discovered(a, x, ps) && p in ps;
    DiscoveredSnoc(a, x, ps, p, q);
    DiscoveredReaches(a, x, ps + [q], q);
  }

  /** A discovery order from a state of a closed set stays inside the set. */
  lemma {:induction false} DiscoveredInside(a: ListAutomaton, x: StateName, ps: seq<StateName>, c: set<StateName>)
    requires Discovered(a, x, ps) && x in c && ArcClosed(a, c)
    ensures forall i :: 0 <= i < |ps| ==> ps[i] in c
    decreases |ps|
  {
    var n := |ps| - 1;
    if n > 0 {
      var init := ps[..n];
      assert Discovered(a, x, init) by {
        forall i | 0 < i < |init| ensures exists j :: 0 <= j < i && Arc(a, init[j], init[i]) {
          var j :| 0 <= j < i && Arc(a, ps[j], ps[i]);
          assert init[j] == ps[j] && init[i] == ps[i];
        }
      }
      DiscoveredInside(a, x, init, c);
      var j :| 0 <= j < n && Arc(a, ps[j], ps[n]);
      assert ps[j] == init[j];
      forall i | 0 <= i < n ensures ps[i] in c {
        assert ps[i] == init[i];
      }
    }
  }

  /** The reached states lie in every closed set holding the origin: they form the least such set. */
  lemma {:induction false} ReachesLeast(a: ListAutomaton, x: StateName, c: set<StateName>, q: StateName)
    requires x in c && ArcClosed(a, c) && Reaches(a, x, q)
    ensures q in c
  {
    var ps :| Discovered(a, x, ps) && q in ps;
    DiscoveredInside(a, x, ps, c);
  }

  /** Every name a search from `x` can meet: `x`, and the target of some triple. */
  ghost function Universe(a: ListAutomaton, x: StateName): set<StateName>
  {
    {x} + set k | 0 <= k < |a.transitions| :: a.transitions[k].to
  }

  /**
    The lookups of line 105 succeed at `p`: unless the alphabet is empty
    (and no lookup happens), `p` has a node with an entry for every symbol.
  */
  ghost predicate Explorable(a: ListAutomaton, p: StateName)
  {
    a.alphabet != [] ==> p in a.states && forall symbol :: symbol in a.alphabet ==> TargetsIn(a.transitions, p, symbol) != []
  }

  /** `p` has been expanded: its lookups succeeded and its targets are all in `possible`. */
  ghost predicate Expanded(a: ListAutomaton, p: StateName, possible: seq<StateName>)
  {
    Explorable(a, p) && forall symbol, q :: symbol in a.alphabet && q in TargetsIn(a.transitions, p, symbol) ==> q in possible
  }

  /** The state of the search of lines 97-108. */
  ghost predicate Searching(a: ListAutomaton, x: StateName, possible: seq<StateName>, next: seq<StateName>)
  {
    && Discovered(a, x, possible) && NoDuplicates(possible) && NoDuplicates(next)
    && Elements(possible) <= Universe(a, x)
    && (forall q :: q in next ==> q in possible)
  }

  /** The names of `xs` that `keep` lists, in their order. */
  function Kept(xs: seq<StateName>, keep: seq<StateName>): (r: seq<StateName>)
    ensures forall q :: q in r <==> q in xs && q in keep
  {
    if xs == [] then []
    else
      var n := |xs| - 1;
      assert xs == xs[..n] + [xs[n]];
      Kept(xs[..n], keep) + (if xs[n] in keep then [xs[n]] else [])
  }

  /** The triples of `ts` whose two ends `keep` lists, in their order. */
  function KeptTriples(ts: seq<Triple>, keep: seq<StateName>): (r: seq<Triple>)
    ensures forall t :: t in r <==> t in ts && t.from in keep && t.to in keep
  {
    if ts == [] then []
    else
      var n := |ts| - 1;
      assert ts == ts[..n] + [ts[n]];
      KeptTriples(ts[..n], keep) + (if ts[n].from in keep && ts[n].to in keep then [ts[n]] else [])
  }

  /**
    `b` is `a` cut down to the states reached from its first start name, as
    `reachable` returns it: those states sorted, the start list unchanged,
    the accept names and the triples among them kept in their order.
  */
  ghost predicate Trims(a: ListAutomaton, b: ListAutomaton)
  {
    && a.start != []
    && StrictlySorted(b.states)
    && (forall q :: q in b.states <==> Reaches(a, a.start[0], q))
    && b == Automaton(b.states, a.start, Kept(a.accepts, b.states), KeptTriples(a.transitions, b.states), a.alphabet)
  }

  /** Appending a new target of a discovered state to both lists keeps the search state. */
  lemma {:induction false} SearchingSnoc(a: ListAutomaton, x: StateName, possible: seq<StateName>, next: seq<StateName>,
                                         p: StateName, symbol: Symbol, s: StateName)
    requires Searching(a, x, possible, next) && p in possible && symbol in a.alphabet
    requires s in TargetsIn(a.transitions, p, symbol) && s !in possible
    ensures Searching(a, x, possible + [s], next + [s])
  {
    TargetsInMembers(a.transitions, p, symbol, s);
    DiscoveredSnoc(a, x, possible, p, s);
    AppendIfAbsent(possible, s);
    AppendIfAbsent(next, s);
  }

  /**
    Lines 105-108 for one symbol: every target `s` of `p` not yet in
    `possible` is appended to `possible` and to `next`; `added` lists them.
  */
  method AddTargets(a: ListAutomaton, x: StateName, p: StateName, symbol: Symbol, targets: seq<StateName>,
                    possible0: seq<StateName>, next0: seq<StateName>)
    returns (possible: seq<StateName>, next: seq<StateName>, ghost added: seq<StateName>)
    requires Searching(a, x, possible0, next0) && p in possible0
    requires symbol in a.alphabet && targets == TargetsIn(a.transitions, p, symbol)
    ensures Searching(a, x, possible, next)
    ensures possible == possible0 + added && next == next0 + added
    ensures forall q :: q in targets ==> q in possible
    ensures forall q :: q in added ==> q in targets
  {
    possible, next, added := possible0, next0, [];
    for k := 0 to |targets|
      invariant Searching(a, x, possible, next)
      invariant possible == possible0 + added && next == next0 + added
      invariant forall m :: 0 <= m < k ==> targets[m] in possible
      invariant forall q :: q in added ==> q in targets
    {
      var s := targets[k];
      if s !in possible {
        SearchingSnoc(a, x, possible, next, p, symbol, s);
        ConcatAssociative(possible0, added, [s]);
        ConcatAssociative(next0, added, [s]);
        added := added + [s];
        possible := possible + [s];
        if s !in next {
          next := next + [s];
        }
      }
    }
  }

  /** The targets of `p` on the first `i` symbols of the alphabet are all in `possible`. */
  ghost predicate Covered(a: ListAutomaton, p: StateName, i: nat, possible: seq<StateName>)
  {
    forall j, q :: 0 <= j < i && j < |a.alphabet| && q in TargetsIn(a.transitions, p, a.alphabet[j]) ==> q in possible
  }

  /** Appending the new targets on symbol `i` extends the coverage by that symbol. */
  lemma {:induction false} CoveredStep(a: ListAutomaton, p: StateName, i: nat, before: seq<StateName>, more: seq<StateName>)
    requires i < |a.alphabet| && Covered(a, p, i, before)
    requires forall q :: q in TargetsIn(a.transitions, p, a.alphabet[i]) ==> q in before + more
    ensures Covered(a, p, i + 1, before + more)
  {
    forall j, q | 0 <= j < i + 1 && q in TargetsIn(a.transitions, p, a.alphabet[j]) ensures q in before + more {
      if j < i {
        assert q in before;
      }
    }
  }

  /** The lookups of `p` on the first `i` symbols of the alphabet succeeded. */
  ghost predicate Looked(a: ListAutomaton, p: StateName, i: nat)
  {
    && (i > 0 ==> p in a.states)
    && forall j :: 0 <= j < i && j < |a.alphabet| ==> TargetsIn(a.transitions, p, a.alphabet[j]) != []
  }

  /** Lookups and coverage over the whole alphabet make `p` expanded. */
  lemma {:induction false} CoveredExpanded(a: ListAutomaton, p: StateName, possible: seq<StateName>)
    requires Looked(a, p, |a.alphabet|) && Covered(a, p, |a.alphabet|, possible)
    ensures Expanded(a, p, possible)
  {
    forall symbol | symbol in a.alphabet
      ensures TargetsIn(a.transitions, p, symbol) != []
      ensures forall q :: q in TargetsIn(a.transitions, p, symbol) ==> q in possible
    {
      var j :| 0 <= j < |a.alphabet| && a.alphabet[j] == symbol;
    }
  }

  /** Lines 104-108: expands `this_node`, or meets the exception its lookups raise. */
  method ExpandNode(a: ListAutomaton, x: StateName, p: StateName, possible0: seq<StateName>, next0: seq<StateName>)
    returns (raised: Option<Raised>, possible: seq<StateName>, next: seq<StateName>, ghost added: seq<StateName>)
    requires Searching(a, x, possible0, next0) && p in possible0 && p !in next0
    ensures raised == None ==> Searching(a, x, possible, next) && Expanded(a, p, possible) && p !in next
    ensures raised == None ==> possible == possible0 + added && next == next0 + added
    ensures raised == Some(KeyError) ==> a.alphabet != [] && p !in a.states
    ensures raised == Some(TypeError) ==>
      p in a.states && exists symbol :: symbol in a.alphabet && TargetsIn(a.transitions, p, symbol) == []
    ensures raised != Some(IndexError)
  {
    possible, next, added := possible0, next0, [];
    for i := 0 to |a.alphabet|
      invariant Searching(a, x, possible, next) && p in possible && p !in next
      invariant possible == possible0 + added && next == next0 + added
      invariant Looked(a, p, i) && Covered(a, p, i, possible)
    {
      var alpha := a.alphabet[i];
      if p !in a.states {
        return Some(KeyError), possible, next, added;
      }
      var found := Step(a, p, alpha);
      StepTargets(a, p, alpha);
      if found == None {
        return Some(TypeError), possible, next, added;
      }
      ghost var before := possible;
      ghost var more;
      possible, next, more := AddTargets(a, x, p, alpha, found.value, possible, next);
      NoDuplicatesSplit(before, more, p);
      ConcatAssociative(possible0, added, more);
      ConcatAssociative(next0, added, more);
      added := added + more;
      CoveredStep(a, p, i, before, more);
    }
    CoveredExpanded(a, p, possible);
    return None, possible, next, added;
  }

  /**
    The search of lines 97-108 from `x`: `possible` ends up listing, each
    once, exactly the states reached from `x`, unless a lookup raises.
  */
  method Search(a: ListAutomaton, x: StateName) returns (raised: Option<Raised>, possible: seq<StateName>)
    ensures raised == None ==> NoDuplicates(possible) && forall q :: q in possible <==> Reaches(a, x, q)
    ensures raised == None ==> forall p :: p in possible ==> Explorable(a, p)
    ensures raised == Some(KeyError) ==> exists p :: Reaches(a, x, p) && a.alphabet != [] && p !in a.states
    ensures raised == Some(TypeError) ==> exists p, symbol :: Reaches(a, x, p) && p in a.states &&
                                            symbol in a.alphabet && TargetsIn(a.transitions, p, symbol) == []
    ensures raised != Some(IndexError)
  {
    possible := [x];
    var next := [x];
    ghost var universe := Universe(a, x);
    while next != []
      invariant Searching(a, x, possible, next)
      invariant forall p :: p in possible && p !in next ==> Expanded(a, p, possible)
      invariant |possible| <= |universe|
      decreases |universe| - |possible|, |next|
    {
      var thisNode := next[0];
      ghost var possible0 := possible;
      next := next[1..];
      ghost var added;
      raised, possible, next, added := ExpandNode(a, x, thisNode, possible, next);
      if raised.Some? {
        DiscoveredReaches(a, x, possible0, thisNode);
        return raised, possible;
      }
      NoDuplicatesCard(possible);
      CardMonotone(Elements(possible), universe);
      forall p | p in possible && p !in next ensures Expanded(a, p, possible) {
        if p != thisNode {
          assert p in possible0;
        }
      }
    }
    assert ArcClosed(a, Elements(possible));
    forall q ensures q in possible <==> Reaches(a, x, q) {
      if q in possible {
        DiscoveredReaches(a, x, possible, q);
      }
      if Reaches(a, x, q) {
        ReachesLeast(a, x, Elements(possible), q);
      }
    }
    return None, possible;
  }

  /**
    `reachable(nfa)` (lines 96-120): the search from the first start name,
    then the found states sorted, and the accept names and the triples
    restricted to them. `nfa.start[0]` raises `IndexError` on an empty
    start list, the node lookup `KeyError` on a name without a node, and
    the loop over `None` `TypeError` on a symbol without an entry.
  */
  method Reachable(a: ListAutomaton) returns (r: Result<ListAutomaton, Raised>)
    ensures r == Err(IndexError) <==> a.start == []
    ensures r == Err(KeyError) ==> exists p :: Reaches(a, a.start[0], p) && a.alphabet != [] && p !in a.states
    ensures r == Err(TypeError) ==> exists p, symbol :: Reaches(a, a.start[0], p) && p in a.states &&
                                      symbol in a.alphabet && TargetsIn(a.transitions, p, symbol) == []
    ensures r.Ok? ==> Trims(a, r.value) && forall p :: p in r.value.states ==> Explorable(a, p)
  {
    if a.start == [] {
      return Err(IndexError);
    }
    var raised, found := Search(a, a.start[0]);
    if raised.Some? {
      return Err(raised.value);
    }
    SortNoDuplicates(found);
    var possible := Sort(found);
    var newAccept := [];
    for k := 0 to |a.accepts|
      invariant newAccept == Kept(a.accepts[..k], possible)
    {
      assert a.accepts[..k + 1][..k] == a.accepts[..k];
      if a.accepts[k] in possible {
        newAccept := newAccept + [a.accepts[k]];
      }
    }
    var newTransitions := [];
    for k := 0 to |a.transitions|
      invariant newTransitions == KeptTriples(a.transitions[..k], possible)
    {
      assert a.transitions[..k + 1][..k] == a.transitions[..k];
      var t := a.transitions[k];
      if t.from in possible && t.to in possible {
        newTransitions := newTransitions + [t];
      }
    }
    assert a.accepts[..|a.accepts|] == a.accepts && a.transitions[..|a.transitions|] == a.transitions;
    r := Ok(Automaton(possible, a.start, newAccept, newTransitions, a.alphabet));
    assert forall q :: q in possible <==> q in Elements(found);
  }

  // ---------------------------------------------------------------------
  // The whole minimisation (lines 123-130)
  // ---------------------------------------------------------------------

  /** In a well-formed automaton the listed states are closed under the edges. */
  lemma {:induction false} StatesArcClosed(a: ListAutomaton)
    requires WellFormed(a)
    ensures ArcClosed(a, Elements(a.states))
  {
    forall p, q | p in Elements(a.states) && Arc(a, p, q) ensures q in Elements(a.states) {
      var symbol :| symbol in a.alphabet && q in TargetsIn(a.transitions, p, symbol);
      TargetsInMembers(a.transitions, p, symbol, q);
    }
  }

  /**
    From a listed start of a well-formed complete DFA only listed states
    are reached, and each has a target on every symbol: the lookups of
    `reachable` then never fail.
  */
  lemma {:induction false} ReachedExplorable(a: ListAutomaton, x: StateName, q: StateName)
    requires WellFormed(a) && CompleteDfa(a) && x in a.states && Reaches(a, x, q)
    ensures q in a.states && forall symbol :: symbol in a.alphabet ==> |TargetsIn(a.transitions, q, symbol)| == 1
  {
    StatesArcClosed(a);
    ReachesLeast(a, x, Elements(a.states), q);
  }

  /** Keeping some names of a list without duplicates gives a list without duplicates. */
  lemma {:induction false} KeptNoDuplicates(xs: seq<StateName>, keep: seq<StateName>)
    requires NoDuplicates(xs)
    ensures NoDuplicates(Kept(xs, keep))
    decreases |xs|
  {
    if xs != [] {
      var n := |xs| - 1;
      assert xs == xs[..n] + [xs[n]];
      assert xs[n] !in xs[..n];
      KeptNoDuplicates(xs[..n], keep);
      AppendIfAbsent(Kept(xs[..n], keep), xs[n]);
    }
  }

  /** What `reachable` returns from a well-formed automaton is well formed. */
  lemma {:induction false} TrimsWellFormed(a: ListAutomaton, b: ListAutomaton)
    requires WellFormed(a) && Trims(a, b)
    ensures WellFormed(b)
  {
    StrictlySortedIsSorted(b.states);
    KeptNoDuplicates(a.accepts, b.states);
    forall k | 0 <= k < |b.transitions| ensures b.transitions[k].from in b.states && b.transitions[k].to in b.states {
      assert b.transitions[k] in KeptTriples(a.transitions, b.states);
    }
  }

  /** Dropping triples that leave `keep` keeps every target of a kept state whose targets are all kept. */
  lemma {:induction false} KeptTargets(ts: seq<Triple>, keep: seq<StateName>, q: StateName, symbol: Symbol)
    requires q in keep && forall t :: t in TargetsIn(ts, q, symbol) ==> t in keep
    ensures TargetsIn(KeptTriples(ts, keep), q, symbol) == TargetsIn(ts, q, symbol)
    decreases |ts|
  {
    if ts != [] {
      var n := |ts| - 1;
      var last := if ts[n].from in keep && ts[n].to in keep then [ts[n]] else [];
      KeptTargets(ts[..n], keep, q, symbol);
      TargetsInAppend(KeptTriples(ts[..n], keep), last, q, symbol);
      TargetsInSingle(ts[n], q, symbol);
    }
  }

  /** In the trimmed automaton a kept state has the one target it had. */
  lemma {:induction false} TrimsTarget(a: ListAutomaton, b: ListAutomaton, q: StateName, symbol: Symbol)
    requires WellFormed(a) && CompleteDfa(a) && Trims(a, b) && a.start[0] in a.states
    requires q in b.states && symbol in a.alphabet
    ensures TargetsIn(b.transitions, q, symbol) == TargetsIn(a.transitions, q, symbol)
    ensures |TargetsIn(b.transitions, q, symbol)| == 1 && TargetsIn(b.transitions, q, symbol)[0] in b.states
  {
    var x := a.start[0];
    ReachedExplorable(a, x, q);
    var ts := TargetsIn(a.transitions, q, symbol);
    assert Arc(a, q, ts[0]);
    ReachesStep(a, x, q, ts[0]);
    assert |ts| == 1;
    assert ts == [ts[0]];
    KeptTargets(a.transitions, b.states, q, symbol);
    assert b.transitions == KeptTriples(a.transitions, b.states);
  }

  /** What `reachable` returns from a well-formed complete DFA with a listed start is a complete DFA. */
  lemma {:induction false} TrimsComplete(a: ListAutomaton, b: ListAutomaton)
    requires WellFormed(a) && CompleteDfa(a) && Trims(a, b) && a.start[0] in a.states
    ensures CompleteDfa(b)
  {
    forall q, symbol | q in b.states && symbol in b.alphabet
      ensures |TargetsIn(b.transitions, q, symbol)| == 1 && TargetsIn(b.transitions, q, symbol)[0] in b.states
    {
      TrimsTarget(a, b, q, symbol);
    }
  }

  /**
    One `determinis` and `reachable` round on a well-formed automaton:
    the determinised automaton is a well-formed complete DFA with one
    listed start, so `reachable` raises nothing, and what it returns is
    again such an automaton.
  */
  method DeterminizeTrim(a: ListAutomaton) returns (r: ListAutomaton, ghost L: seq<seq<StateName>>)
    requires SubsetReady(a) && NoDuplicates(a.alphabet)
    ensures Listing(a, L) && Trims(Determinized(a, L), r)
    ensures WellFormed(r) && CompleteDfa(r) && |r.start| == 1 && r.start[0] in r.states
    ensures r.alphabet == a.alphabet
  {
    var d;
    d, L := Determinis(a);
    DeterminizedWellFormed(a, L);
    DeterminizedComplete(a, L);
    DeterminizedStart(a, L);
    var x := d.start[0];
    assert x in d.states by {
      assert d.states[x.index] == x;
    }
    forall q | Reaches(d, x, q)
      ensures q in d.states && forall symbol :: symbol in d.alphabet ==> TargetsIn(d.transitions, q, symbol) != []
    {
      ReachedExplorable(d, x, q);
    }
    var res := Reachable(d);
    match res {
      case Ok(value) => r := value;
      case Err(IndexError) => assert false;
      case Err(KeyError) => assert false;
      case Err(TypeError) => assert false;
    }
    TrimsWellFormed(d, r);
    TrimsComplete(d, r);
    ReachesItself(d, x);
  }

  /**
    `convertNfaToMinDfa` (lines 123-130): reverse, determinise, trim, and
    all three again. From a well-formed automaton the result is a
    well-formed complete DFA with one listed start state, all of whose
    states are reached from it; `first` is the automaton after the first
    round, `L1` and `L2` the subset lists of the two rounds.
  */
  method ConvertNfaToMinDfa(a: ListAutomaton)
    returns (r: ListAutomaton, ghost first: ListAutomaton, ghost L1: seq<seq<StateName>>, ghost L2: seq<seq<StateName>>)
    requires WellFormed(a)
    ensures Listing(Reversed(a), L1) && Trims(Determinized(Reversed(a), L1), first)
    ensures Listing(Reversed(first), L2) && Trims(Determinized(Reversed(first), L2), r)
    ensures WellFormed(r) && CompleteDfa(r) && |r.start| == 1 && r.start[0] in r.states
    ensures r.alphabet == a.alphabet
  {
    var b := Revers(a);
    ReversedReady(a);
    b, L1 := DeterminizeTrim(b);
    first := b;
    b := Revers(b);
    ReversedReady(first);
    r, L2 := DeterminizeTrim(b);
  }
}
