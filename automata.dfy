/**
  The automaton data model shared by every algorithm of the toolkit.

  Two shapes are in use. The constructor
  `Automata(states, start, accepts, transitions, alphabet)` builds an
  automaton from lists and a list of `[from, [symbols], to]` triples, and
  derives one node per state from the triples; this is the `Automaton`
  value below. Thompson's construction instead starts from an empty
  automaton and grows its `nodes` map in place with `addNodes` and
  `addTransition`; this is the `Nfa` class.
*/
module Automata {
  import opened Wrappers
  import opened Names

  /** A transition symbol: the string token of the description files. */
  type Symbol = string

  /** The reserved epsilon symbol, the one-character string "\0". */
  const EPSILON: Symbol := "\0"

  /** The Python exceptions the algorithms can raise on inputs they do not expect. */
  datatype Raised = IndexError | KeyError | TypeError

  /** A node: its name, its targets per symbol (in insertion order) and its accept flag. */
  datatype Node = Node(name: StateName, transitions: map<Symbol, seq<StateName>>, accept: bool)

  /** A transition triple `[from, [symbols], to]`. */
  datatype Triple = Triple(from: StateName, symbols: seq<Symbol>, to: StateName)

  /**
    The constructor-built automaton. The source keeps one start name in its
    `start` field in every file except brzozowski.py, which keeps a list of
    start names there; the type of `start` is therefore a parameter. The
    alphabet is listed in its iteration order.
  */
  datatype Automaton<St> = Automaton(
    states: seq<StateName>,
    start: St,
    accepts: seq<StateName>,
    transitions: seq<Triple>,
    alphabet: seq<Symbol>)

  /** An automaton with one start name, as the description files build it. */
  type Dfa = Automaton<StateName>

  /** `node.getTransitionState(symbol)`: the target list, or `None` when the symbol has no entry. */
  function GetTransitionState(n: Node, symbol: Symbol): (r: Option<seq<StateName>>)
    ensures r.Some? <==> symbol in n.transitions
    ensures r.Some? ==> r.value == n.transitions[symbol]
  {
    if symbol in n.transitions then Some(n.transitions[symbol]) else None
  }

  /** `node.addTransition(to, symbol)`: appends `to` to the target list of `symbol`. */
  function AddTransition(n: Node, to: StateName, symbol: Symbol): (r: Node)
    ensures r.name == n.name && r.accept == n.accept
    ensures r.transitions.Keys == n.transitions.Keys + {symbol}
    ensures r.transitions[symbol] == (if symbol in n.transitions then n.transitions[symbol] else []) + [to]
    ensures forall s :: s in n.transitions && s != symbol ==> r.transitions[s] == n.transitions[s]
  {
    var old_targets := if symbol in n.transitions then n.transitions[symbol] else [];
    n.(transitions := n.transitions[symbol := old_targets + [to]])
  }

  /** The targets the constructor adds to `q` on `symbol`, one per matching triple, in triple order. */
  function TargetsIn(ts: seq<Triple>, q: StateName, symbol: Symbol): seq<StateName>
  {
    if ts == [] then []
    else
      var n := |ts| - 1;
      TargetsIn(ts[..n], q, symbol) + (if ts[n].from == q && symbol in ts[n].symbols then [ts[n].to] else [])
  }

  lemma {:induction false} TargetsInMembers(ts: seq<Triple>, q: StateName, symbol: Symbol, t: StateName)
    ensures t in TargetsIn(ts, q, symbol) <==>
      exists k :: 0 <= k < |ts| && ts[k].from == q && symbol in ts[k].symbols && ts[k].to == t
  {
    if ts != [] {
      var n := |ts| - 1;
      TargetsInMembers(ts[..n], q, symbol, t);
      if t in TargetsIn(ts[..n], q, symbol) {
        var k :| 0 <= k < |ts[..n]| && ts[..n][k].from == q && symbol in ts[..n][k].symbols && ts[..n][k].to == t;
        assert ts[k] == ts[..n][k];
      }
      forall k | 0 <= k < n && ts[k].from == q && symbol in ts[k].symbols && ts[k].to == t
        ensures t in TargetsIn(ts[..n], q, symbol)
      {
        assert ts[..n][k] == ts[k];
      }
    }
  }

  /** The targets of a concatenation are those of its two parts, in order. */
  lemma {:induction false} TargetsInAppend(xs: seq<Triple>, ys: seq<Triple>, q: StateName, symbol: Symbol)
    ensures TargetsIn(xs + ys, q, symbol) == TargetsIn(xs, q, symbol) + TargetsIn(ys, q, symbol)
    decreases |ys|
  {
    if ys == [] {
      assert xs + ys == xs;
    } else {
      var n := |ys| - 1;
      assert (xs + ys)[..|xs| + n] == xs + ys[..n];
      TargetsInAppend(xs, ys[..n], q, symbol);
    }
  }

  /** State `q` of the triples `ts` has no target on `symbol`. */
  ghost predicate NoTargets(ts: seq<Triple>, q: StateName, symbol: Symbol)
  {
    TargetsIn(ts, q, symbol) == []
  }

  /** On `symbol`, state `q` of the triples `ts` goes to exactly one target, `x`. */
  ghost predicate Yields(ts: seq<Triple>, q: StateName, symbol: Symbol, x: StateName)
  {
    TargetsIn(ts, q, symbol) == [x]
  }

  /** A single triple yields its target exactly when it leaves `q` on `symbol`. */
  lemma TargetsInSingle(t: Triple, q: StateName, symbol: Symbol)
    ensures TargetsIn([t], q, symbol) == if t.from == q && symbol in t.symbols then [t.to] else []
  {
    assert [t][..0] == [];
  }

  lemma NoTargetsAppend(xs: seq<Triple>, ys: seq<Triple>, q: StateName, symbol: Symbol)
    requires NoTargets(xs, q, symbol) && NoTargets(ys, q, symbol)
    ensures NoTargets(xs + ys, q, symbol)
  {
    TargetsInAppend(xs, ys, q, symbol);
  }

  lemma YieldsAfter(xs: seq<Triple>, ys: seq<Triple>, q: StateName, symbol: Symbol, x: StateName)
    requires NoTargets(xs, q, symbol) && Yields(ys, q, symbol, x)
    ensures Yields(xs + ys, q, symbol, x)
  {
    TargetsInAppend(xs, ys, q, symbol);
    assert [] + [x] == [x];
  }

  lemma YieldsBefore(xs: seq<Triple>, ys: seq<Triple>, q: StateName, symbol: Symbol, x: StateName)
    requires Yields(xs, q, symbol, x) && NoTargets(ys, q, symbol)
    ensures Yields(xs + ys, q, symbol, x)
  {
    TargetsInAppend(xs, ys, q, symbol);
    assert [x] + [] == [x];
  }

  /** The symbols that label some triple leaving `q`. */
  function SymbolsFrom(ts: seq<Triple>, q: StateName): set<Symbol>
  {
    set k, symbol | 0 <= k < |ts| && ts[k].from == q && symbol in ts[k].symbols :: symbol
  }

  /** The node the constructor builds for state `q`. */
  function NodeOf<St>(a: Automaton<St>, q: StateName): Node
  {
    Node(q, map symbol | symbol in SymbolsFrom(a.transitions, q) :: TargetsIn(a.transitions, q, symbol), q in a.accepts)
  }

  /** `automaton.nodes`: one node per listed state. */
  function Nodes<St>(a: Automaton<St>): (m: map<StateName, Node>)
    ensures m.Keys == Elements(a.states)
  {
    map q | q in a.states :: NodeOf(a, q)
  }

  /** `automaton.nodes[q].getTransitionState(symbol)`, for a listed state `q`. */
  function Step<St>(a: Automaton<St>, q: StateName, symbol: Symbol): Option<seq<StateName>>
    requires q in a.states
  {
    GetTransitionState(Nodes(a)[q], symbol)
  }

  /** A constructor-built node has an entry for a symbol exactly when some triple puts a target there. */
  lemma StepTargets<St>(a: Automaton<St>, q: StateName, symbol: Symbol)
    requires q in a.states
    ensures Step(a, q, symbol) == if TargetsIn(a.transitions, q, symbol) == [] then None
                                  else Some(TargetsIn(a.transitions, q, symbol))
  {
    var ts := a.transitions;
    if symbol in SymbolsFrom(ts, q) {
      var k :| 0 <= k < |ts| && ts[k].from == q && symbol in ts[k].symbols;
      TargetsInMembers(ts, q, symbol, ts[k].to);
    } else if TargetsIn(ts, q, symbol) != [] {
      var t := TargetsIn(ts, q, symbol)[0];
      TargetsInMembers(ts, q, symbol, t);
    }
  }

  /** The well-formedness the algorithms trust: every name they look up has a node. */
  predicate WellFormed<St>(a: Automaton<St>)
  {
    && NoDuplicates(a.states)
    && NoDuplicates(a.accepts)
    && NoDuplicates(a.alphabet)
    && (forall q :: q in a.accepts ==> q in a.states)
    && (forall k :: 0 <= k < |a.transitions| ==>
          a.transitions[k].from in a.states && a.transitions[k].to in a.states)
  }

  /**
    A complete deterministic automaton: every listed state has exactly one
    target on every alphabet symbol, and that target is listed.
  */
  predicate CompleteDfa<St>(a: Automaton<St>)
  {
    forall q, symbol :: q in a.states && symbol in a.alphabet ==>
      |TargetsIn(a.transitions, q, symbol)| == 1 && TargetsIn(a.transitions, q, symbol)[0] in a.states
  }

  /** Nodes are keyed by their names, and every target a node lists is itself a node. */
  predicate ClosedNodes(m: map<StateName, Node>)
  {
    && (forall q {:trigger m[q].name} :: q in m ==> m[q].name == q)
    && (forall q, symbol, k {:trigger m[q].transitions[symbol][k]} ::
          q in m && symbol in m[q].transitions && 0 <= k < |m[q].transitions[symbol]| ==>
            m[q].transitions[symbol][k] in m)
  }

  /**
    `m[q].addTransition(to, symbol)` on a node map. The source raises a
    `KeyError` for a name without a node; every caller here adds edges from
    listed nodes only (`Nfa.AddNodeTransition` requires it), so the map is
    left as it is in that case.
  */
  function AddEdge(m: map<StateName, Node>, q: StateName, to: StateName, symbol: Symbol): (r: map<StateName, Node>)
    ensures r.Keys == m.Keys
  {
    if q in m then m[q := AddTransition(m[q], to, symbol)] else m
  }

  /** Adding a transition to a listed node, towards a listed node, keeps the node map closed. */
  lemma ClosedAddEdge(m: map<StateName, Node>, q: StateName, to: StateName, symbol: Symbol)
    requires ClosedNodes(m) && q in m && to in m
    ensures ClosedNodes(AddEdge(m, q, to, symbol))
  {
  }

  /** Merging two closed node maps gives a closed node map. */
  lemma ClosedUnion(m1: map<StateName, Node>, m2: map<StateName, Node>)
    requires ClosedNodes(m1) && ClosedNodes(m2)
    ensures ClosedNodes(m1 + m2)
  {
  }

  /** The start and accept names have nodes, and every node map entry is closed. */
  predicate NfaShape(nodes: map<StateName, Node>, start: StateName, accepts: seq<StateName>)
  {
    && start in nodes
    && (forall q :: q in accepts ==> q in nodes)
    && ClosedNodes(nodes)
  }

  /** A single labelled edge of a node map. */
  datatype Edge = Edge(from: StateName, symbol: Symbol, to: StateName)

  /** The set of labelled edges a node map holds. */
  ghost function Edges(m: map<StateName, Node>): set<Edge>
  {
    set q, symbol, t | q in m && symbol in m[q].transitions && t in m[q].transitions[symbol] :: Edge(q, symbol, t)
  }

  lemma EdgesMember(m: map<StateName, Node>, e: Edge)
    ensures e in Edges(m) <==>
      e.from in m && e.symbol in m[e.from].transitions && e.to in m[e.from].transitions[e.symbol]
  {
  }

  /** Adding one transition adds exactly that edge. */
  lemma EdgesAddEdge(m: map<StateName, Node>, q: StateName, to: StateName, symbol: Symbol)
    requires q in m
    ensures Edges(AddEdge(m, q, to, symbol)) == Edges(m) + {Edge(q, symbol, to)}
  {
    var m' := AddEdge(m, q, to, symbol);
    forall e | e in Edges(m') ensures e in Edges(m) + {Edge(q, symbol, to)} {
      EdgesMember(m', e);
      EdgesMember(m, e);
    }
    forall e | e in Edges(m) + {Edge(q, symbol, to)} ensures e in Edges(m') {
      EdgesMember(m', e);
      EdgesMember(m, e);
    }
  }

  /** The edges all leave listed nodes. */
  predicate EdgesFrom(m: map<StateName, Node>, es: seq<Edge>)
  {
    forall k :: 0 <= k < |es| ==> es[k].from in m
  }

  /** The node map after `addTransition` for each edge of `es`, in order. */
  function AddEdges(m: map<StateName, Node>, es: seq<Edge>): (r: map<StateName, Node>)
    ensures r.Keys == m.Keys
  {
    if es == [] then m
    else
      var e := es[|es| - 1];
      AddEdge(AddEdges(m, es[..|es| - 1]), e.from, e.to, e.symbol)
  }

  /** `AddEdges` on a list of four edges, spelled out call by call. */
  lemma AddFourEdges(m: map<StateName, Node>, es: seq<Edge>)
    requires |es| == 4
    ensures var m1 := AddEdge(m, es[0].from, es[0].to, es[0].symbol);
            var m2 := AddEdge(m1, es[1].from, es[1].to, es[1].symbol);
            var m3 := AddEdge(m2, es[2].from, es[2].to, es[2].symbol);
            AddEdges(m, es) == AddEdge(m3, es[3].from, es[3].to, es[3].symbol)
  {
    var m1 := AddEdge(m, es[0].from, es[0].to, es[0].symbol);
    var m2 := AddEdge(m1, es[1].from, es[1].to, es[1].symbol);
    var m3 := AddEdge(m2, es[2].from, es[2].to, es[2].symbol);
    assert es[..1][..0] == [];
    assert AddEdges(m, es[..1]) == m1;
    assert es[..2][..1] == es[..1];
    assert AddEdges(m, es[..2]) == m2;
    assert es[..3][..2] == es[..2];
    assert AddEdges(m, es[..3]) == m3;
    assert es[..4] == es;
  }

  /** Adding a list of transitions adds exactly its edges. */
  lemma {:induction false} EdgesAddEdges(m: map<StateName, Node>, es: seq<Edge>)
    requires EdgesFrom(m, es)
    ensures Edges(AddEdges(m, es)) == Edges(m) + Elements(es)
  {
    if es != [] {
      var init, e := es[..|es| - 1], es[|es| - 1];
      assert EdgesFrom(m, init) by {
        forall k | 0 <= k < |init| ensures init[k].from in m { assert init[k] == es[k]; }
      }
      EdgesAddEdges(m, init);
      EdgesAddEdge(AddEdges(m, init), e.from, e.to, e.symbol);
      ElementsInit(es);
    }
  }

  /** Adding transitions between listed nodes keeps a node map closed. */
  lemma {:induction false} ClosedAddEdges(m: map<StateName, Node>, es: seq<Edge>)
    requires EdgesFrom(m, es) && ClosedNodes(m)
    requires forall k :: 0 <= k < |es| ==> es[k].to in m
    ensures ClosedNodes(AddEdges(m, es))
  {
    if es != [] {
      var init, e := es[..|es| - 1], es[|es| - 1];
      ClosedAddEdges(m, init);
      ClosedAddEdge(AddEdges(m, init), e.from, e.to, e.symbol);
    }
  }

  /** Merging node maps with disjoint names unites their edges. */
  lemma EdgesUnion(m1: map<StateName, Node>, m2: map<StateName, Node>)
    requires m1.Keys !! m2.Keys
    ensures Edges(m1 + m2) == Edges(m1) + Edges(m2)
  {
    forall e | e in Edges(m1 + m2) ensures e in Edges(m1) + Edges(m2) {
      EdgesMember(m1 + m2, e);
      EdgesMember(m1, e);
      EdgesMember(m2, e);
    }
    forall e | e in Edges(m1) + Edges(m2) ensures e in Edges(m1 + m2) {
      EdgesMember(m1 + m2, e);
      EdgesMember(m1, e);
      EdgesMember(m2, e);
    }
  }

  /** The attributes of an automaton under Thompson's construction, as a value. */
  datatype NfaValue = NfaValue(nodes: map<StateName, Node>, start: StateName, accepts: seq<StateName>,
                               alphabet: set<Symbol>, accept: Option<seq<StateName>>)

  /** The start and accept names have nodes, and the node map is closed. */
  predicate Shaped(v: NfaValue)
  {
    NfaShape(v.nodes, v.start, v.accepts)
  }

  /**
    The automaton Thompson's construction grows in place: `nodes`,
    `start`, `accepts` and `alphabet`, plus `accept`, an attribute that
    only the repetition step creates (`None` until then).
  */
  class Nfa {
    var nodes: map<StateName, Node>
    var start: StateName
    var accepts: seq<StateName>
    var alphabet: set<Symbol>
    var accept: Option<seq<StateName>>

    /** The five attributes as one value. */
    function Value(): NfaValue
      reads this
    {
      NfaValue(nodes, start, accepts, alphabet, accept)
    }

    /** `Automata()`: no nodes, no accept states, an empty alphabet; `start` is assigned later. */
    constructor ()
      ensures nodes == map[] && accepts == [] && alphabet == {} && accept == None
    {
      nodes := map[];
      accepts := [];
      alphabet := {};
      accept := None;
    }

    /** `addNodes`: installs each node under its name. */
    method AddNodes(added: map<StateName, Node>)
      modifies this
      ensures nodes == old(nodes) + added
      ensures start == old(start) && accepts == old(accepts)
      ensures alphabet == old(alphabet) && accept == old(accept)
    {
      nodes := nodes + added;
    }

    /** `nodes[from].addTransition(to, symbol)`. */
    method AddNodeTransition(from: StateName, to: StateName, symbol: Symbol)
      requires from in nodes
      modifies this
      ensures nodes == AddEdge(old(nodes), from, to, symbol)
      ensures start == old(start) && accepts == old(accepts)
      ensures alphabet == old(alphabet) && accept == old(accept)
    {
      nodes := AddEdge(nodes, from, to, symbol);
    }

    /** `automaton.start = q`. */
    method SetStart(q: StateName)
      modifies this
      ensures start == q
      ensures nodes == old(nodes) && accepts == old(accepts)
      ensures alphabet == old(alphabet) && accept == old(accept)
    {
      start := q;
    }

    /** `automaton.accepts = qs`. */
    method SetAccepts(qs: seq<StateName>)
      modifies this
      ensures accepts == qs
      ensures nodes == old(nodes) && start == old(start)
      ensures alphabet == old(alphabet) && accept == old(accept)
    {
      accepts := qs;
    }

    /** `automaton.accept = a`, the attribute only the repetition step writes. */
    method SetAccept(a: Option<seq<StateName>>)
      modifies this
      ensures accept == a
      ensures nodes == old(nodes) && start == old(start)
      ensures accepts == old(accepts) && alphabet == old(alphabet)
    {
      accept := a;
    }

    /** `automaton.alphabet |= symbols`. */
    method AddSymbols(symbols: set<Symbol>)
      modifies this
      ensures alphabet == old(alphabet) + symbols
      ensures nodes == old(nodes) && start == old(start)
      ensures accepts == old(accepts) && accept == old(accept)
    {
      alphabet := alphabet + symbols;
    }
  }
}
