/**
  Thompson's construction: an NFA grown step by step, each combining step
  merging the right automaton into the left one in place. Fresh state
  names `s1`, `s2`, ... come from a counter shared by all steps.

  `Thompson` is the reference: the automaton, as a value, that the
  construction yields for a tree and a counter value. The methods below
  perform the construction on `Nfa` objects and are proved to agree with
  it; the lemmas prove what the reference yields.
*/
module ThompsonsConstruction {
  import opened Wrappers
  import opened Names
  import opened Regex
  import opened Automata

  /** The name issued for counter value `n`: "s" followed by the decimal digits of `n`. */
  function Issued(n: nat): StateName
  {
    Named("s" + Decimal(n))
  }

  /** Different counter values give different names. */
  lemma {:induction false} IssuedInjective(m: nat, n: nat)
    requires Issued(m) == Issued(n)
    ensures m == n
  {
    assert Decimal(m) == ("s" + Decimal(m))[1..];
    assert Decimal(n) == ("s" + Decimal(n))[1..];
    DecimalInjective(m, n);
  }

  /** The names issued for counter values `lo+1 .. hi`. */
  ghost function IssuedNames(lo: nat, hi: nat): set<StateName>
  {
    set i: nat | lo < i <= hi :: Issued(i)
  }

  /** A name issued outside `lo+1 .. hi` is none of the names issued in that range. */
  lemma {:induction false} IssuedLater(n: nat, lo: nat, hi: nat)
    requires hi < n || n <= lo
    ensures Issued(n) !in IssuedNames(lo, hi)
  {
    if Issued(n) in IssuedNames(lo, hi) {
      var i: nat :| lo < i <= hi && Issued(i) == Issued(n);
      IssuedInjective(i, n);
    }
  }

  /** Names issued in consecutive counter ranges are distinct. */
  lemma {:induction false} IssuedRangesDisjoint(a: nat, b: nat, c: nat, d: nat)
    requires b <= c
    ensures IssuedNames(a, b) !! IssuedNames(c, d)
  {
    forall q | q in IssuedNames(a, b) ensures q !in IssuedNames(c, d) {
      var i: nat :| a < i <= b && Issued(i) == q;
      IssuedLater(i, c, d);
    }
  }

  lemma {:induction false} IssuedRangesJoin(a: nat, b: nat, c: nat)
    requires a <= b <= c
    ensures IssuedNames(a, b) + IssuedNames(b, c) == IssuedNames(a, c)
  {
  }

  /** A counter range of width `hi - lo` issues that many distinct names. */
  lemma {:induction false} IssuedCount(lo: nat, hi: nat)
    requires lo <= hi
    ensures |IssuedNames(lo, hi)| == hi - lo
    decreases hi
  {
    if hi > lo {
      IssuedCount(lo, hi - 1);
      IssuedLater(hi, lo, hi - 1);
      assert IssuedNames(lo, hi) == IssuedNames(lo, hi - 1) + {Issued(hi)};
    } else {
      assert IssuedNames(lo, hi) == {};
    }
  }

  /** The two names issued after counter value `n`. */
  lemma {:induction false} IssuedPair(n: nat)
    ensures Issued(n + 1) != Issued(n + 2)
    ensures IssuedNames(n, n + 2) == {Issued(n + 1), Issued(n + 2)}
  {
    IssuedLater(n + 2, n, n + 1);
  }

  /** Adding the next two issued names to the names issued in `a+1 .. b` gives those in `a+1 .. b+2`. */
  lemma {:induction false} IssuedExtend(a: nat, b: nat)
    requires a <= b
    ensures IssuedNames(a, b) + {Issued(b + 1), Issued(b + 2)} == IssuedNames(a, b + 2)
  {
  }

  /** The names of two consecutive ranges and the next two names together form one range. */
  lemma {:induction false} IssuedJoinExtend(a: nat, b: nat, c: nat)
    requires a <= b <= c
    ensures IssuedNames(a, b) + IssuedNames(b, c) + {Issued(c + 1), Issued(c + 2)} == IssuedNames(a, c + 2)
  {
    IssuedRangesJoin(a, b, c);
    IssuedExtend(a, c);
  }

  /** The global counter `__next_node_id`. */
  class NameSupply {
    var lastId: nat

    constructor ()
      ensures lastId == 0
    {
      lastId := 0;
    }

    /** `__nextName`: increments the counter and names the new value, never a name issued before. */
    method NextName() returns (name: StateName)
      modifies this
      ensures lastId == old(lastId) + 1
      ensures name == Issued(lastId)
      ensures name !in IssuedNames(0, old(lastId))
    {
      lastId := lastId + 1;
      name := Issued(lastId);
      IssuedLater(lastId, 0, old(lastId));
    }
  }

  /** `AutomataNode(name)`: a node with no transitions. */
  function NewNode(name: StateName): (n: Node)
    ensures n.name == name && n.transitions == map[] && !n.accept
  {
    Node(name, map[], false)
  }

  /** Two fresh nodes keyed by their names. */
  function NewNodes(a: StateName, b: StateName): (m: map<StateName, Node>)
    ensures m.Keys == {a, b}
  {
    map[a := NewNode(a), b := NewNode(b)]
  }

  lemma {:induction false} NewNodesFacts(a: StateName, b: StateName)
    ensures ClosedNodes(NewNodes(a, b)) && Edges(NewNodes(a, b)) == {}
  {
    forall e | e in Edges(NewNodes(a, b)) ensures false {
      EdgesMember(NewNodes(a, b), e);
    }
  }

  /** The nodes of `constructCharacter(c)` (lines 36-41). */
  function CharacterNodes(s0: StateName, s1: StateName, c: Symbol): (m: map<StateName, Node>)
    ensures m.Keys == {s0, s1}
  {
    AddEdge(NewNodes(s0, s1), s0, s1, c)
  }

  /** The character automaton's nodes are closed and hold the one edge s0 --c--> s1. */
  lemma {:induction false} CharacterNodesFacts(s0: StateName, s1: StateName, c: Symbol)
    ensures ClosedNodes(CharacterNodes(s0, s1, c))
    ensures Edges(CharacterNodes(s0, s1, c)) == {Edge(s0, c, s1)}
  {
    NewNodesFacts(s0, s1);
    ClosedAddEdge(NewNodes(s0, s1), s0, s1, c);
    EdgesAddEdge(NewNodes(s0, s1), s0, s1, c);
  }

  /** `constructCharacter(c)` drawing its two names after counter value `n`. */
  function CharacterStep(c: Symbol, n: nat): NfaValue
  {
    NfaValue(CharacterNodes(Issued(n + 1), Issued(n + 2), c), Issued(n + 1), [Issued(n + 2)], {c}, None)
  }

  /**
    The character automaton: two distinct fresh states, the first the start
    and the second the only accept state, one transition between them on
    `c`, and `c` in the alphabet.
  */
  lemma {:induction false} CharacterStepFacts(c: Symbol, n: nat)
    ensures var v := CharacterStep(c, n);
            && v.start == Issued(n + 1) && v.accepts == [Issued(n + 2)] && v.start != v.accepts[0]
            && v.nodes.Keys == {v.start, v.accepts[0]}
            && Edges(v.nodes) == {Edge(v.start, c, v.accepts[0])}
            && c in v.alphabet && Shaped(v)
  {
    IssuedPair(n);
    CharacterNodesFacts(Issued(n + 1), Issued(n + 2), c);
  }

  /** The epsilon edges the loop of lines 62-63 adds: one from each state of `accepts` to `target`. */
  ghost function LinkEdges(accepts: seq<StateName>, target: StateName): set<Edge>
  {
    set q | q in accepts :: Edge(q, EPSILON, target)
  }

  lemma {:induction false} LinkEdgesInit(accepts: seq<StateName>, target: StateName)
    requires |accepts| > 0
    ensures var last := accepts[|accepts| - 1];
            LinkEdges(accepts, target) == LinkEdges(accepts[..|accepts| - 1], target) + {Edge(last, EPSILON, target)}
  {
    assert accepts == accepts[..|accepts| - 1] + [accepts[|accepts| - 1]];
  }

    /** The node map after the loop of lines 62-63 has run over `accepts`. */
  function LinkAccepts(m: map<StateName, Node>, accepts: seq<StateName>, target: StateName): (r: map<StateName, Node>)
    ensures r.Keys == m.Keys
  {
    if accepts == [] then m
    else AddEdge(LinkAccepts(m, accepts[..|accepts| - 1], target), accepts[|accepts| - 1], target, EPSILON)
  }

  /** The loop adds exactly one epsilon edge per accept state. */
  lemma {:induction false} LinkAcceptsEdges(m: map<StateName, Node>, accepts: seq<StateName>, target: StateName)
    requires forall q :: q in accepts ==> q in m
    ensures Edges(LinkAccepts(m, accepts, target)) == Edges(m) + LinkEdges(accepts, target)
  {
    if accepts != [] {
      var init, last := accepts[..|accepts| - 1], accepts[|accepts| - 1];
      LinkAcceptsEdges(m, init, target);
      EdgesAddEdge(LinkAccepts(m, init, target), last, target, EPSILON);
      LinkEdgesInit(accepts, target);
    }
  }

  /** The loop keeps a closed map closed when its target is a node. */
  lemma {:induction false} LinkAcceptsClosed(m: map<StateName, Node>, accepts: seq<StateName>, target: StateName)
    requires forall q :: q in accepts ==> q in m
    requires ClosedNodes(m) && target in m
    ensures ClosedNodes(LinkAccepts(m, accepts, target))
  {
    if accepts != [] {
      var init, last := accepts[..|accepts| - 1], accepts[|accepts| - 1];
      LinkAcceptsClosed(m, init, target);
      ClosedAddEdge(LinkAccepts(m, init, target), last, target, EPSILON);
    }
  }

  /** The nodes of `constructConcatenation` (lines 57-63): right merged into left, right's accepts linked to right's start. */
  function ConcatenationNodes(left: map<StateName, Node>, right: map<StateName, Node>,
                              rightAccepts: seq<StateName>, rightStart: StateName): (m: map<StateName, Node>)
    ensures m.Keys == left.Keys + right.Keys
  {
    LinkAccepts(left + right, rightAccepts, rightStart)
  }

  /** Concatenation keeps every edge of both sides and adds one epsilon edge from each of right's accepts to right's start. */
  lemma {:induction false} ConcatenationEdges(left: map<StateName, Node>, right: map<StateName, Node>,
                           rightAccepts: seq<StateName>, rightStart: StateName)
    requires forall q :: q in rightAccepts ==> q in right
    requires left.Keys !! right.Keys
    ensures Edges(ConcatenationNodes(left, right, rightAccepts, rightStart)) ==
              Edges(left) + Edges(right) + LinkEdges(rightAccepts, rightStart)
  {
    EdgesUnion(left, right);
    LinkAcceptsEdges(left + right, rightAccepts, rightStart);
  }

  /** Concatenating closed node maps keeps them closed when right's accepts and start are right's nodes. */
  lemma {:induction false} ConcatenationNodesClosed(left: map<StateName, Node>, right: map<StateName, Node>,
                                 rightAccepts: seq<StateName>, rightStart: StateName)
    requires ClosedNodes(left) && ClosedNodes(right)
    requires (forall q :: q in rightAccepts ==> q in right) && rightStart in right
    ensures ClosedNodes(ConcatenationNodes(left, right, rightAccepts, rightStart))
  {
    ClosedUnion(left, right);
    LinkAcceptsClosed(left + right, rightAccepts, rightStart);
  }

  /**
    The quirk of lines 58-63: no edge leads out of left's nodes after a
    concatenation, and its accept states lie outside them, so from left's
    start no accept state is reachable.
  */
  lemma {:induction false} ConcatenationDisconnected(left: map<StateName, Node>, right: map<StateName, Node>,
                                  rightAccepts: seq<StateName>, rightStart: StateName)
    requires left.Keys !! right.Keys && ClosedNodes(left)
    requires forall q :: q in rightAccepts ==> q in right
    ensures forall e :: e in Edges(ConcatenationNodes(left, right, rightAccepts, rightStart)) && e.from in left ==>
              e.to in left
    ensures forall q :: q in rightAccepts ==> q !in left
  {
    ConcatenationEdges(left, right, rightAccepts, rightStart);
    forall e | e in Edges(ConcatenationNodes(left, right, rightAccepts, rightStart)) && e.from in left
      ensures e.to in left
    {
      if e in Edges(left) {
        EdgesMember(left, e);
        var k :| 0 <= k < |left[e.from].transitions[e.symbol]| && left[e.from].transitions[e.symbol][k] == e.to;
      } else if e in Edges(right) {
        EdgesMember(right, e);
      }
    }
  }

  /** `constructConcatenation(l, r)` on values. */
  function ConcatenationStep(l: NfaValue, r: NfaValue): NfaValue
  {
    NfaValue(ConcatenationNodes(l.nodes, r.nodes, r.accepts, r.start), l.start, r.accepts, l.alphabet + r.alphabet, l.accept)
  }

  /**
    Concatenation only adds: the nodes of both sides, their edges plus one
    epsilon edge per accept state of right to right's start; left's start,
    right's accepts, both alphabets. Two closed automata give a closed one.
  */
  lemma {:induction false} ConcatenationStepFacts(l: NfaValue, r: NfaValue)
    requires l.nodes.Keys !! r.nodes.Keys && forall q :: q in r.accepts ==> q in r.nodes
    ensures var v := ConcatenationStep(l, r);
            && v.nodes.Keys == l.nodes.Keys + r.nodes.Keys
            && Edges(v.nodes) == Edges(l.nodes) + Edges(r.nodes) + (set q | q in r.accepts :: Edge(q, EPSILON, r.start))
            && v.start == l.start && v.accepts == r.accepts && v.alphabet == l.alphabet + r.alphabet
    ensures |r.accepts| == 1 ==>
              Edges(ConcatenationStep(l, r).nodes) == Edges(l.nodes) + Edges(r.nodes) + {Edge(r.accepts[0], EPSILON, r.start)}
    ensures Shaped(l) && Shaped(r) ==> Shaped(ConcatenationStep(l, r))
  {
    ConcatenationEdges(l.nodes, r.nodes, r.accepts, r.start);
    if |r.accepts| == 1 {
      assert (set q | q in r.accepts :: Edge(q, EPSILON, r.start)) == {Edge(r.accepts[0], EPSILON, r.start)};
    }
    if Shaped(l) && Shaped(r) {
      ConcatenationNodesClosed(l.nodes, r.nodes, r.accepts, r.start);
    }
  }

  /** The four epsilon transitions of lines 85-88, in order. */
  function AlternativeLinks(leftStart: StateName, leftAccept: StateName, rightStart: StateName, rightAccept: StateName,
                            newStart: StateName, newAccept: StateName): (es: seq<Edge>)
    ensures |es| == 4
  {
    [Edge(newStart, EPSILON, leftStart), Edge(newStart, EPSILON, rightStart),
     Edge(leftAccept, EPSILON, newAccept), Edge(rightAccept, EPSILON, newAccept)]
  }

  /**
    The nodes of `constructAlternative` (lines 76-88), with the fresh pair
    `newStart`, `newAccept`: epsilon edges from the new start to both old
    starts, and from both old accepts to the new accept, in that order.
  */
  function AlternativeNodes(left: map<StateName, Node>, right: map<StateName, Node>,
                            leftStart: StateName, leftAccept: StateName, rightStart: StateName, rightAccept: StateName,
                            newStart: StateName, newAccept: StateName): (m: map<StateName, Node>)
    ensures m.Keys == left.Keys + right.Keys + {newStart, newAccept}
  {
    AddEdges(left + right + NewNodes(newStart, newAccept),
             AlternativeLinks(leftStart, leftAccept, rightStart, rightAccept, newStart, newAccept))
  }

  lemma {:induction false} AlternativeNodesClosed(left: map<StateName, Node>, right: map<StateName, Node>,
                               leftStart: StateName, leftAccept: StateName, rightStart: StateName, rightAccept: StateName,
                               newStart: StateName, newAccept: StateName)
    requires leftStart in left && leftAccept in left && rightStart in right && rightAccept in right
    requires ClosedNodes(left) && ClosedNodes(right)
    ensures ClosedNodes(AlternativeNodes(left, right, leftStart, leftAccept, rightStart, rightAccept, newStart, newAccept))
  {
    NewNodesFacts(newStart, newAccept);
    ClosedUnion(left, right);
    ClosedUnion(left + right, NewNodes(newStart, newAccept));
    ClosedAddEdges(left + right + NewNodes(newStart, newAccept),
                   AlternativeLinks(leftStart, leftAccept, rightStart, rightAccept, newStart, newAccept));
  }

  /** The alternative keeps every edge and adds exactly its four epsilon edges. */
  lemma {:induction false} AlternativeNodesEdges(left: map<StateName, Node>, right: map<StateName, Node>,
                              leftStart: StateName, leftAccept: StateName, rightStart: StateName, rightAccept: StateName,
                              newStart: StateName, newAccept: StateName)
    requires left.Keys !! right.Keys && (left.Keys + right.Keys) !! {newStart, newAccept}
    requires leftAccept in left && rightAccept in right
    ensures Edges(AlternativeNodes(left, right, leftStart, leftAccept, rightStart, rightAccept, newStart, newAccept)) ==
              Edges(left) + Edges(right) +
              {Edge(newStart, EPSILON, leftStart), Edge(newStart, EPSILON, rightStart),
               Edge(leftAccept, EPSILON, newAccept), Edge(rightAccept, EPSILON, newAccept)}
  {
    var es := AlternativeLinks(leftStart, leftAccept, rightStart, rightAccept, newStart, newAccept);
    NewNodesFacts(newStart, newAccept);
    EdgesUnion(left, right);
    EdgesUnion(left + right, NewNodes(newStart, newAccept));
    EdgesAddEdges(left + right + NewNodes(newStart, newAccept), es);
    ElementsFour(es);
  }

  /** `constructAlternative(l, r)` drawing its two names after counter value `n`. */
  function AlternativeStep(l: NfaValue, r: NfaValue, n: nat): NfaValue
    requires |l.accepts| > 0 && |r.accepts| > 0
  {
    var newStart, newAccept := Issued(n + 1), Issued(n + 2);
    NfaValue(AlternativeNodes(l.nodes, r.nodes, l.start, l.accepts[0], r.start, r.accepts[0], newStart, newAccept),
             newStart, [newAccept], l.alphabet + r.alphabet, l.accept)
  }

  /**
    The alternative only adds: both sides' nodes and edges, the fresh pair
    as start and single accept state, an epsilon edge from the new start to
    each old start and from each old `accepts[0]` to the new accept. Two
    closed automata give a closed one.
  */
  lemma {:induction false} AlternativeStepFacts(l: NfaValue, r: NfaValue, n: nat)
    requires |l.accepts| > 0 && |r.accepts| > 0 && l.accepts[0] in l.nodes && r.accepts[0] in r.nodes
    requires l.nodes.Keys !! r.nodes.Keys && (l.nodes.Keys + r.nodes.Keys) !! {Issued(n + 1), Issued(n + 2)}
    ensures var v := AlternativeStep(l, r, n);
            && v.nodes.Keys == l.nodes.Keys + r.nodes.Keys + {Issued(n + 1), Issued(n + 2)}
            && Edges(v.nodes) == Edges(l.nodes) + Edges(r.nodes) +
                 {Edge(v.start, EPSILON, l.start), Edge(v.start, EPSILON, r.start),
                  Edge(l.accepts[0], EPSILON, v.accepts[0]), Edge(r.accepts[0], EPSILON, v.accepts[0])}
            && v.start == Issued(n + 1) && v.accepts == [Issued(n + 2)] && v.alphabet == l.alphabet + r.alphabet
    ensures Shaped(l) && Shaped(r) ==> Shaped(AlternativeStep(l, r, n))
  {
    var newStart, newAccept := Issued(n + 1), Issued(n + 2);
    AlternativeNodesEdges(l.nodes, r.nodes, l.start, l.accepts[0], r.start, r.accepts[0], newStart, newAccept);
    if Shaped(l) && Shaped(r) {
      AlternativeNodesClosed(l.nodes, r.nodes, l.start, l.accepts[0], r.start, r.accepts[0], newStart, newAccept);
    }
  }

  /** The four epsilon transitions of lines 108-113, in order. */
  function StarLinks(start: StateName, accept: StateName, newStart: StateName, newAccept: StateName): (es: seq<Edge>)
    ensures |es| == 4
  {
    [Edge(newStart, EPSILON, start), Edge(newStart, EPSILON, newAccept),
     Edge(accept, EPSILON, newAccept), Edge(accept, EPSILON, start)]
  }

  /**
    The nodes of `constructRepetition` (lines 104-113), with the fresh pair
    `newStart`, `newAccept`: epsilon edges from the new start to the old
    start and to the new accept, then from the old accept to the new accept
    and back to the old start.
  */
  function RepetitionNodes(left: map<StateName, Node>, start: StateName, accept: StateName,
                           newStart: StateName, newAccept: StateName): (m: map<StateName, Node>)
    ensures m.Keys == left.Keys + {newStart, newAccept}
  {
    AddEdges(left + NewNodes(newStart, newAccept), StarLinks(start, accept, newStart, newAccept))
  }

  lemma {:induction false} RepetitionNodesClosed(left: map<StateName, Node>, start: StateName, accept: StateName,
                              newStart: StateName, newAccept: StateName)
    requires start in left && accept in left && ClosedNodes(left)
    ensures ClosedNodes(RepetitionNodes(left, start, accept, newStart, newAccept))
  {
    NewNodesFacts(newStart, newAccept);
    ClosedUnion(left, NewNodes(newStart, newAccept));
    ClosedAddEdges(left + NewNodes(newStart, newAccept), StarLinks(start, accept, newStart, newAccept));
  }

  /** The repetition keeps every edge and adds exactly the four epsilon edges of the star. */
  lemma {:induction false} RepetitionNodesEdges(left: map<StateName, Node>, start: StateName, accept: StateName,
                             newStart: StateName, newAccept: StateName)
    requires left.Keys !! {newStart, newAccept} && accept in left
    ensures Edges(RepetitionNodes(left, start, accept, newStart, newAccept)) ==
              Edges(left) +
              {Edge(newStart, EPSILON, start), Edge(newStart, EPSILON, newAccept),
               Edge(accept, EPSILON, newAccept), Edge(accept, EPSILON, start)}
  {
    var es := StarLinks(start, accept, newStart, newAccept);
    NewNodesFacts(newStart, newAccept);
    EdgesUnion(left, NewNodes(newStart, newAccept));
    EdgesAddEdges(left + NewNodes(newStart, newAccept), es);
    ElementsFour(es);
  }

  /**
    `constructRepetition(v)` drawing its two names after counter value `n`.
    The fresh accept state goes to `accept`, not `accepts` (line 117), so
    `accepts` still names the old accept state.
  */
  function RepetitionStep(v: NfaValue, n: nat): NfaValue
    requires |v.accepts| > 0
  {
    var newStart, newAccept := Issued(n + 1), Issued(n + 2);
    NfaValue(RepetitionNodes(v.nodes, v.start, v.accepts[0], newStart, newAccept), newStart, v.accepts, v.alphabet, Some([newAccept]))
  }

  /**
    The star only adds: the fresh pair, the four epsilon edges of the star,
    a fresh start; `accepts` is left as it was, and the fresh accept state
    is stored under `accept` only. A closed automaton gives a closed one.
  */
  lemma {:induction false} RepetitionStepFacts(v: NfaValue, n: nat)
    requires |v.accepts| > 0 && v.accepts[0] in v.nodes && v.nodes.Keys !! {Issued(n + 1), Issued(n + 2)}
    ensures var w := RepetitionStep(v, n);
            && w.nodes.Keys == v.nodes.Keys + {Issued(n + 1), Issued(n + 2)}
            && Edges(w.nodes) == Edges(v.nodes) +
                 {Edge(w.start, EPSILON, v.start), Edge(w.start, EPSILON, Issued(n + 2)),
                  Edge(v.accepts[0], EPSILON, Issued(n + 2)), Edge(v.accepts[0], EPSILON, v.start)}
            && w.start == Issued(n + 1) && w.accepts == v.accepts && w.accept == Some([Issued(n + 2)])
            && w.alphabet == v.alphabet
    ensures Shaped(v) ==> Shaped(RepetitionStep(v, n))
  {
    var newStart, newAccept := Issued(n + 1), Issued(n + 2);
    RepetitionNodesEdges(v.nodes, v.start, v.accepts[0], newStart, newAccept);
    if Shaped(v) {
      RepetitionNodesClosed(v.nodes, v.start, v.accepts[0], newStart, newAccept);
    }
  }

  /** The symbols of a tree's Sigma leaves. */
  function SymbolsOf(p: Production): set<Symbol>
  {
    match p
    case Sigma(sigma) => {sigma}
    case Repetition(e) => SymbolsOf(e)
    case Alternative(l, r) => SymbolsOf(l) + SymbolsOf(r)
    case Concatenation(l, r) => SymbolsOf(l) + SymbolsOf(r)
    case NilExpression => {}
  }

  /** The number of names Thompson's construction issues for a tree without nil expressions. */
  function NamesUsed(p: Production): nat
  {
    match p
    case Sigma(_) => 2
    case Repetition(e) => NamesUsed(e) + 2
    case Alternative(l, r) => NamesUsed(l) + NamesUsed(r) + 2
    case Concatenation(l, r) => NamesUsed(l) + NamesUsed(r)
    case NilExpression => 0
  }

  predicate HasNil(p: Production)
  {
    match p
    case Sigma(_) => false
    case Repetition(e) => HasNil(e)
    case Alternative(l, r) => HasNil(l) || HasNil(r)
    case Concatenation(l, r) => HasNil(l) || HasNil(r)
    case NilExpression => true
  }

  /** The start state the construction gives a nil-free tree when the counter is at `n`. */
  function ThompsonStart(p: Production, n: nat): StateName
    requires !HasNil(p)
  {
    match p
    case Sigma(_) => Issued(n + 1)
    case Repetition(e) => Issued(n + NamesUsed(e) + 1)
    case Alternative(l, r) => Issued(n + NamesUsed(l) + NamesUsed(r) + 1)
    case Concatenation(l, _) => ThompsonStart(l, n)
  }

  /** Its single entry of `accepts`: a repetition keeps the inner one (line 117). */
  function ThompsonFinal(p: Production, n: nat): StateName
    requires !HasNil(p)
  {
    match p
    case Sigma(_) => Issued(n + 2)
    case Repetition(e) => ThompsonFinal(e, n)
    case Alternative(l, r) => Issued(n + NamesUsed(l) + NamesUsed(r) + 2)
    case Concatenation(l, r) => ThompsonFinal(r, n + NamesUsed(l))
  }

  /** Its `accept` attribute: set by the repetition step, carried along by the left operand of the others. */
  function ThompsonAccept(p: Production, n: nat): Option<seq<StateName>>
    requires !HasNil(p)
  {
    match p
    case Sigma(_) => None
    case Repetition(e) => Some([Issued(n + NamesUsed(e) + 2)])
    case Alternative(l, _) => ThompsonAccept(l, n)
    case Concatenation(l, _) => ThompsonAccept(l, n)
  }

  /**
    `v` is what the construction builds for `p` with the counter at `n`:
    one node per name issued meanwhile, the start, accept list and `accept`
    attribute the steps assign, and the tree's symbols as alphabet.
  */
  ghost predicate Builds(p: Production, n: nat, v: NfaValue)
    requires !HasNil(p)
  {
    && v.nodes.Keys == IssuedNames(n, n + NamesUsed(p))
    && v.start == ThompsonStart(p, n)
    && v.accepts == [ThompsonFinal(p, n)]
    && v.accept == ThompsonAccept(p, n)
    && v.alphabet == SymbolsOf(p)
  }


  /**
    The reference: the automaton, as a value, that the construction yields
    for a nil-free tree with the counter at `n`. A leaf is a character step;
    an inner node is the step of its kind applied to its operands' automata,
    the right operand drawing its names after the left one's.
  */
  function Thompson(p: Production, n: nat): (v: NfaValue)
    requires !HasNil(p)
    ensures |v.accepts| == 1
    decreases p, 1
  {
    match p
    case Sigma(c) => CharacterStep(c, n)
    case Repetition(_) => RepetitionAutomaton(p, n)
    case Alternative(_, _) => AlternativeAutomaton(p, n)
    case Concatenation(_, _) => ConcatenationAutomaton(p, n)
  }

  /** The reference for a star: the star step on its operand's automaton. */
  function RepetitionAutomaton(p: Production, n: nat): (v: NfaValue)
    requires p.Repetition? && !HasNil(p)
    ensures |v.accepts| == 1
    decreases p, 0
  {
    RepetitionStep(Thompson(p.expr, n), n + NamesUsed(p.expr))
  }

  /** The reference for an alternative: the alternative step on its operands' automata. */
  function AlternativeAutomaton(p: Production, n: nat): (v: NfaValue)
    requires p.Alternative? && !HasNil(p)
    ensures |v.accepts| == 1
    decreases p, 0
  {
    AlternativeStep(Thompson(p.left, n), Thompson(p.right, n + NamesUsed(p.left)), n + NamesUsed(p.left) + NamesUsed(p.right))
  }

  /** The reference for a concatenation: the concatenation step on its operands' automata. */
  function ConcatenationAutomaton(p: Production, n: nat): (v: NfaValue)
    requires p.Concatenation? && !HasNil(p)
    ensures |v.accepts| == 1
    decreases p, 0
  {
    ConcatenationStep(Thompson(p.left, n), Thompson(p.right, n + NamesUsed(p.left)))
  }

  /** The star's four epsilon edges around an operand with the given start and final state. */
  ghost function StarLinkSet(start: StateName, final: StateName, newStart: StateName, newAccept: StateName): set<Edge>
  {
    {Edge(newStart, EPSILON, start), Edge(newStart, EPSILON, newAccept),
     Edge(final, EPSILON, newAccept), Edge(final, EPSILON, start)}
  }

  /** The alternative's four epsilon edges to both operands' starts and from both final states. */
  ghost function AlternativeLinkSet(leftStart: StateName, leftFinal: StateName, rightStart: StateName, rightFinal: StateName,
                                    newStart: StateName, newAccept: StateName): set<Edge>
  {
    {Edge(newStart, EPSILON, leftStart), Edge(newStart, EPSILON, rightStart),
     Edge(leftFinal, EPSILON, newAccept), Edge(rightFinal, EPSILON, newAccept)}
  }

  /**
    The transitions of the whole tree's automaton, written from the tree
    alone: a leaf's one symbol edge; a star's four epsilon edges around its
    operand; an alternative's four epsilon edges to the operands' starts and
    from their final states; and for a concatenation only the epsilon edge
    from the right operand's final state back to its own start (lines 58-63),
    so nothing joins the left operand to the right one.
  */
  ghost function ThompsonEdges(p: Production, n: nat): set<Edge>
    requires !HasNil(p)
  {
    match p
    case Sigma(c) => {Edge(Issued(n + 1), c, Issued(n + 2))}
    case Repetition(e) =>
      var k := n + NamesUsed(e);
      ThompsonEdges(e, n) + StarLinkSet(ThompsonStart(e, n), ThompsonFinal(e, n), Issued(k + 1), Issued(k + 2))
    case Alternative(l, r) =>
      var m := n + NamesUsed(l);
      var k := m + NamesUsed(r);
      ThompsonEdges(l, n) + ThompsonEdges(r, m) +
        AlternativeLinkSet(ThompsonStart(l, n), ThompsonFinal(l, n), ThompsonStart(r, m), ThompsonFinal(r, m), Issued(k + 1), Issued(k + 2))
    case Concatenation(l, r) =>
      var m := n + NamesUsed(l);
      ThompsonEdges(l, n) + ThompsonEdges(r, m) + {Edge(ThompsonFinal(r, m), EPSILON, ThompsonStart(r, m))}
  }

  /** `v` is the reference automaton for `p` with the counter at `n`. */
  ghost predicate IsThompson(p: Production, n: nat, v: NfaValue)
    requires !HasNil(p)
  {
    v == Thompson(p, n)
  }

  /** The node map `m` holds exactly the transitions `ThompsonEdges` lists for `p`. */
  ghost predicate EdgesAre(m: map<StateName, Node>, p: Production, n: nat)
    requires !HasNil(p)
  {
    Edges(m) == ThompsonEdges(p, n)
  }

  /** The reference for `p` is what `Builds` describes, with closed nodes. */
  ghost predicate BuildsShaped(p: Production, n: nat)
    requires !HasNil(p)
  {
    Builds(p, n, Thompson(p, n)) && Shaped(Thompson(p, n))
  }

  /** The reference for `p` has exactly the transitions `ThompsonEdges` lists. */
  ghost predicate HasThompsonEdges(p: Production, n: nat)
    requires !HasNil(p)
  {
    EdgesAre(Thompson(p, n).nodes, p, n)
  }

  /**
    What the reference yields for every nil-free tree: the nodes, start,
    accept list, `accept` attribute and alphabet that `Builds` describes,
    closed nodes, and exactly the transitions `ThompsonEdges` lists.
  */
  lemma {:induction false} ThompsonFacts(p: Production, n: nat, v: NfaValue)
    requires !HasNil(p) && IsThompson(p, n, v)
    ensures Builds(p, n, v) && Shaped(v)
    ensures Edges(v.nodes) == ThompsonEdges(p, n)
  {
    ThompsonBuilds(p, n);
    ThompsonTransitions(p, n);
  }

  /** The `Builds` and `Shaped` half of `ThompsonFacts`, by induction on the tree. */
  lemma {:induction false} ThompsonBuilds(p: Production, n: nat)
    requires !HasNil(p)
    ensures BuildsShaped(p, n)
    decreases p, 1
  {
    match p
    case Sigma(c) => CharacterBuilds(c, n);
    case Repetition(_) => RepetitionBuildsCase(p, n);
    case Alternative(_, _) => AlternativeBuildsCase(p, n);
    case Concatenation(_, _) => ConcatenationBuildsCase(p, n);
  }

  lemma {:induction false} RepetitionBuildsCase(p: Production, n: nat)
    requires p.Repetition? && !HasNil(p)
    ensures BuildsShaped(p, n)
    decreases p, 0
  {
    ThompsonBuilds(p.expr, n);
    RepetitionLevel(p, n);
  }

  lemma {:induction false} RepetitionLevel(p: Production, n: nat)
    requires p.Repetition? && !HasNil(p) && BuildsShaped(p.expr, n)
    ensures BuildsShaped(p, n)
  {
    var v := Thompson(p.expr, n);
    ThompsonRepetition(p, n, v);
    RepetitionShape(p, n, v);
  }

  lemma {:induction false} AlternativeBuildsCase(p: Production, n: nat)
    requires p.Alternative? && !HasNil(p)
    ensures BuildsShaped(p, n)
    decreases p, 0
  {
    ThompsonBuilds(p.left, n);
    ThompsonBuilds(p.right, n + NamesUsed(p.left));
    AlternativeLevel(p, n);
  }

  lemma {:induction false} AlternativeLevel(p: Production, n: nat)
    requires p.Alternative? && !HasNil(p) && BuildsShaped(p.left, n) && BuildsShaped(p.right, n + NamesUsed(p.left))
    ensures BuildsShaped(p, n)
  {
    var lv, rv := Thompson(p.left, n), Thompson(p.right, n + NamesUsed(p.left));
    ThompsonAlternative(p, n, lv, rv);
    AlternativeShape(p, n, lv, rv);
  }

  lemma {:induction false} ConcatenationBuildsCase(p: Production, n: nat)
    requires p.Concatenation? && !HasNil(p)
    ensures BuildsShaped(p, n)
    decreases p, 0
  {
    ThompsonBuilds(p.left, n);
    ThompsonBuilds(p.right, n + NamesUsed(p.left));
    ConcatenationLevel(p, n);
  }

  lemma {:induction false} ConcatenationLevel(p: Production, n: nat)
    requires p.Concatenation? && !HasNil(p) && BuildsShaped(p.left, n) && BuildsShaped(p.right, n + NamesUsed(p.left))
    ensures BuildsShaped(p, n)
  {
    var lv, rv := Thompson(p.left, n), Thompson(p.right, n + NamesUsed(p.left));
    ThompsonConcatenation(p, n, lv, rv);
    ConcatenationShape(p, n, lv, rv);
  }

  /** The transitions half of `ThompsonFacts`, by induction on the tree. */
  lemma {:induction false} ThompsonTransitions(p: Production, n: nat)
    requires !HasNil(p)
    ensures HasThompsonEdges(p, n)
    decreases p, 1
  {
    match p
    case Sigma(c) => CharacterEdgesLevel(c, n);
    case Repetition(_) => RepetitionEdgesLevel(p, n);
    case Alternative(_, _) => AlternativeEdgesLevel(p, n);
    case Concatenation(_, _) => ConcatenationEdgesLevel(p, n);
  }

  lemma {:induction false} CharacterEdgesLevel(c: Symbol, n: nat)
    ensures HasThompsonEdges(Sigma(c), n)
  {
    CharacterStepFacts(c, n);
  }

  lemma {:induction false} RepetitionEdgesLevel(p: Production, n: nat)
    requires p.Repetition? && !HasNil(p)
    ensures HasThompsonEdges(p, n)
    decreases p, 0
  {
    ThompsonTransitions(p.expr, n);
    ThompsonBuilds(p.expr, n);
    RepetitionTransitions(p, n);
  }

  lemma {:induction false} AlternativeEdgesLevel(p: Production, n: nat)
    requires p.Alternative? && !HasNil(p)
    ensures HasThompsonEdges(p, n)
    decreases p, 0
  {
    ThompsonTransitions(p.left, n);
    ThompsonTransitions(p.right, n + NamesUsed(p.left));
    ThompsonBuilds(p.left, n);
    ThompsonBuilds(p.right, n + NamesUsed(p.left));
    AlternativeTransitions(p, n);
  }

  lemma {:induction false} ConcatenationEdgesLevel(p: Production, n: nat)
    requires p.Concatenation? && !HasNil(p)
    ensures HasThompsonEdges(p, n)
    decreases p, 0
  {
    ThompsonTransitions(p.left, n);
    ThompsonTransitions(p.right, n + NamesUsed(p.left));
    ThompsonBuilds(p.left, n);
    ThompsonBuilds(p.right, n + NamesUsed(p.left));
    ConcatenationTransitions(p, n);
  }

  /** One level of the reference for a star. */
  lemma {:induction false} ThompsonRepetition(p: Production, n: nat, v: NfaValue)
    requires p.Repetition? && !HasNil(p) && v == Thompson(p.expr, n)
    ensures IsThompson(p, n, RepetitionStep(v, n + NamesUsed(p.expr)))
  {
  }

  /** One level of the reference for an alternative. */
  lemma {:induction false} ThompsonAlternative(p: Production, n: nat, lv: NfaValue, rv: NfaValue)
    requires p.Alternative? && !HasNil(p)
    requires lv == Thompson(p.left, n) && rv == Thompson(p.right, n + NamesUsed(p.left))
    ensures IsThompson(p, n, AlternativeStep(lv, rv, n + NamesUsed(p.left) + NamesUsed(p.right)))
  {
  }

  /** One level of the reference for a concatenation. */
  lemma {:induction false} ThompsonConcatenation(p: Production, n: nat, lv: NfaValue, rv: NfaValue)
    requires p.Concatenation? && !HasNil(p)
    requires lv == Thompson(p.left, n) && rv == Thompson(p.right, n + NamesUsed(p.left))
    ensures IsThompson(p, n, ConcatenationStep(lv, rv))
  {
  }

  /** The star step applied to what its operand builds gives what `Builds` describes, with closed nodes. */
  lemma {:induction false} RepetitionShape(p: Production, n: nat, v: NfaValue)
    requires p.Repetition? && !HasNil(p) && Builds(p.expr, n, v) && Shaped(v)
    ensures var w := RepetitionStep(v, n + NamesUsed(p.expr));
            Builds(p, n, w) && Shaped(w)
  {
    var k := n + NamesUsed(p.expr);
    RepetitionReady(p, n, v);
    RepetitionStepFacts(v, k);
    RepetitionBuilds(p, n, v, RepetitionStep(v, k));
  }

  /** The reference for a star has the edges `ThompsonEdges` lists for it. */
  lemma {:induction false} RepetitionTransitions(p: Production, n: nat)
    requires p.Repetition? && !HasNil(p) && BuildsShaped(p.expr, n) && HasThompsonEdges(p.expr, n)
    ensures HasThompsonEdges(p, n)
  {
    var v := Thompson(p.expr, n);
    ThompsonRepetition(p, n, v);
    RepetitionStepEdges(p, n, v);
  }

  /** The star's edges, with its four new edges written as `StarLinkSet`. */
  lemma {:induction false} RepetitionStepEdgeSet(v: NfaValue, n: nat)
    requires |v.accepts| > 0 && v.accepts[0] in v.nodes && v.nodes.Keys !! {Issued(n + 1), Issued(n + 2)}
    ensures Edges(RepetitionStep(v, n).nodes) ==
              Edges(v.nodes) + StarLinkSet(v.start, v.accepts[0], Issued(n + 1), Issued(n + 2))
  {
    RepetitionNodesEdges(v.nodes, v.start, v.accepts[0], Issued(n + 1), Issued(n + 2));
  }

  /** The star step adds the edges `ThompsonEdges` lists for a star. */
  lemma {:induction false} RepetitionStepEdges(p: Production, n: nat, v: NfaValue)
    requires p.Repetition? && !HasNil(p) && Builds(p.expr, n, v) && Shaped(v)
    requires EdgesAre(v.nodes, p.expr, n)
    ensures EdgesAre(RepetitionStep(v, n + NamesUsed(p.expr)).nodes, p, n)
  {
    var k := n + NamesUsed(p.expr);
    RepetitionReady(p, n, v);
    RepetitionStepEdgeSet(v, k);
    ThompsonEdgesRepetition(p, n);
    calc {
      Edges(RepetitionStep(v, k).nodes);
      Edges(v.nodes) + StarLinkSet(v.start, v.accepts[0], Issued(k + 1), Issued(k + 2));
      ThompsonEdges(p.expr, n) + StarLinkSet(ThompsonStart(p.expr, n), ThompsonFinal(p.expr, n), Issued(k + 1), Issued(k + 2));
      ThompsonEdges(p, n);
    }
  }

  /** The alternative step applied to what its operands build gives what `Builds` describes, with closed nodes. */
  lemma {:induction false} AlternativeShape(p: Production, n: nat, lv: NfaValue, rv: NfaValue)
    requires p.Alternative? && !HasNil(p)
    requires Builds(p.left, n, lv) && Shaped(lv) && Builds(p.right, n + NamesUsed(p.left), rv) && Shaped(rv)
    ensures var v := AlternativeStep(lv, rv, n + NamesUsed(p.left) + NamesUsed(p.right));
            Builds(p, n, v) && Shaped(v)
  {
    var k := n + NamesUsed(p.left) + NamesUsed(p.right);
    AlternativeReady(p, n, lv, rv);
    AlternativeStepFacts(lv, rv, k);
    AlternativeBuilds(p, n, lv, rv, AlternativeStep(lv, rv, k));
  }

  /** The reference for an alternative has the edges `ThompsonEdges` lists for it. */
  lemma {:induction false} AlternativeTransitions(p: Production, n: nat)
    requires p.Alternative? && !HasNil(p)
    requires BuildsShaped(p.left, n) && BuildsShaped(p.right, n + NamesUsed(p.left))
    requires HasThompsonEdges(p.left, n) && HasThompsonEdges(p.right, n + NamesUsed(p.left))
    ensures HasThompsonEdges(p, n)
  {
    var lv, rv := Thompson(p.left, n), Thompson(p.right, n + NamesUsed(p.left));
    ThompsonAlternative(p, n, lv, rv);
    AlternativeStepEdges(p, n, lv, rv);
  }

  /** The alternative step's edges, with its four new edges written as `AlternativeLinkSet`. */
  lemma {:induction false} AlternativeStepEdgeSet(l: NfaValue, r: NfaValue, n: nat)
    requires |l.accepts| > 0 && |r.accepts| > 0 && l.accepts[0] in l.nodes && r.accepts[0] in r.nodes
    requires l.nodes.Keys !! r.nodes.Keys && (l.nodes.Keys + r.nodes.Keys) !! {Issued(n + 1), Issued(n + 2)}
    ensures Edges(AlternativeStep(l, r, n).nodes) ==
              Edges(l.nodes) + Edges(r.nodes) +
              AlternativeLinkSet(l.start, l.accepts[0], r.start, r.accepts[0], Issued(n + 1), Issued(n + 2))
  {
    AlternativeNodesEdges(l.nodes, r.nodes, l.start, l.accepts[0], r.start, r.accepts[0], Issued(n + 1), Issued(n + 2));
  }

  /** The alternative step adds the edges `ThompsonEdges` lists for an alternative. */
  lemma {:induction false} AlternativeStepEdges(p: Production, n: nat, lv: NfaValue, rv: NfaValue)
    requires p.Alternative? && !HasNil(p)
    requires Builds(p.left, n, lv) && Shaped(lv) && Builds(p.right, n + NamesUsed(p.left), rv) && Shaped(rv)
    requires EdgesAre(lv.nodes, p.left, n) && EdgesAre(rv.nodes, p.right, n + NamesUsed(p.left))
    ensures EdgesAre(AlternativeStep(lv, rv, n + NamesUsed(p.left) + NamesUsed(p.right)).nodes, p, n)
  {
    var m := n + NamesUsed(p.left);
    var k := m + NamesUsed(p.right);
    AlternativeReady(p, n, lv, rv);
    AlternativeStepEdgeSet(lv, rv, k);
    ThompsonEdgesAlternative(p, n);
    calc {
      Edges(AlternativeStep(lv, rv, k).nodes);
      Edges(lv.nodes) + Edges(rv.nodes) + AlternativeLinkSet(lv.start, lv.accepts[0], rv.start, rv.accepts[0], Issued(k + 1), Issued(k + 2));
      ThompsonEdges(p.left, n) + ThompsonEdges(p.right, m) +
        AlternativeLinkSet(ThompsonStart(p.left, n), ThompsonFinal(p.left, n),
                           ThompsonStart(p.right, m), ThompsonFinal(p.right, m), Issued(k + 1), Issued(k + 2));
      ThompsonEdges(p, n);
    }
  }

  /** The concatenation step applied to what its operands build gives what `Builds` describes, with closed nodes. */
  lemma {:induction false} ConcatenationShape(p: Production, n: nat, lv: NfaValue, rv: NfaValue)
    requires p.Concatenation? && !HasNil(p)
    requires Builds(p.left, n, lv) && Shaped(lv) && Builds(p.right, n + NamesUsed(p.left), rv) && Shaped(rv)
    ensures Builds(p, n, ConcatenationStep(lv, rv)) && Shaped(ConcatenationStep(lv, rv))
  {
    ConcatenationReady(p, n, lv, rv);
    ConcatenationStepFacts(lv, rv);
    ConcatenationBuilds(p, n, lv, rv, ConcatenationStep(lv, rv));
  }

  /** The reference for a concatenation has the edges `ThompsonEdges` lists for it. */
  lemma {:induction false} ConcatenationTransitions(p: Production, n: nat)
    requires p.Concatenation? && !HasNil(p)
    requires BuildsShaped(p.left, n) && BuildsShaped(p.right, n + NamesUsed(p.left))
    requires HasThompsonEdges(p.left, n) && HasThompsonEdges(p.right, n + NamesUsed(p.left))
    ensures HasThompsonEdges(p, n)
  {
    var lv, rv := Thompson(p.left, n), Thompson(p.right, n + NamesUsed(p.left));
    ThompsonConcatenation(p, n, lv, rv);
    ConcatenationStepEdges(p, n, lv, rv);
  }

  /** The concatenation step adds the one edge `ThompsonEdges` lists for a concatenation. */
  lemma {:induction false} ConcatenationStepEdges(p: Production, n: nat, lv: NfaValue, rv: NfaValue)
    requires p.Concatenation? && !HasNil(p)
    requires Builds(p.left, n, lv) && Shaped(lv) && Builds(p.right, n + NamesUsed(p.left), rv) && Shaped(rv)
    requires EdgesAre(lv.nodes, p.left, n) && EdgesAre(rv.nodes, p.right, n + NamesUsed(p.left))
    ensures EdgesAre(ConcatenationStep(lv, rv).nodes, p, n)
  {
    var m := n + NamesUsed(p.left);
    ConcatenationReady(p, n, lv, rv);
    ConcatenationStepFacts(lv, rv);
    ThompsonEdgesConcatenation(p, n);
    calc {
      Edges(ConcatenationStep(lv, rv).nodes);
      Edges(lv.nodes) + Edges(rv.nodes) + {Edge(rv.accepts[0], EPSILON, rv.start)};
      ThompsonEdges(p.left, n) + ThompsonEdges(p.right, m) + {Edge(ThompsonFinal(p.right, m), EPSILON, ThompsonStart(p.right, m))};
      ThompsonEdges(p, n);
    }
  }

  /** One level of `ThompsonEdges` for a star. */
  lemma {:induction false} ThompsonEdgesRepetition(p: Production, n: nat)
    requires p.Repetition? && !HasNil(p)
    ensures RepetitionEdgesUnfolded(p, n)
  {
  }

  ghost predicate RepetitionEdgesUnfolded(p: Production, n: nat)
    requires p.Repetition? && !HasNil(p)
  {
    var k := n + NamesUsed(p.expr);
    ThompsonEdges(p, n) ==
      ThompsonEdges(p.expr, n) + StarLinkSet(ThompsonStart(p.expr, n), ThompsonFinal(p.expr, n), Issued(k + 1), Issued(k + 2))
  }

  /** One level of `ThompsonEdges` for an alternative. */
  lemma {:induction false} ThompsonEdgesAlternative(p: Production, n: nat)
    requires p.Alternative? && !HasNil(p)
    ensures AlternativeEdgesUnfolded(p, n)
  {
  }

  ghost predicate AlternativeEdgesUnfolded(p: Production, n: nat)
    requires p.Alternative? && !HasNil(p)
  {
    var m := n + NamesUsed(p.left);
    var k := m + NamesUsed(p.right);
    ThompsonEdges(p, n) == ThompsonEdges(p.left, n) + ThompsonEdges(p.right, m) +
      AlternativeLinkSet(ThompsonStart(p.left, n), ThompsonFinal(p.left, n),
                         ThompsonStart(p.right, m), ThompsonFinal(p.right, m), Issued(k + 1), Issued(k + 2))
  }

  /** One level of `ThompsonEdges` for a concatenation. */
  lemma {:induction false} ThompsonEdgesConcatenation(p: Production, n: nat)
    requires p.Concatenation? && !HasNil(p)
    ensures ConcatenationEdgesUnfolded(p, n)
  {
  }

  ghost predicate ConcatenationEdgesUnfolded(p: Production, n: nat)
    requires p.Concatenation? && !HasNil(p)
  {
    var m := n + NamesUsed(p.left);
    ThompsonEdges(p, n) == ThompsonEdges(p.left, n) + ThompsonEdges(p.right, m) +
      {Edge(ThompsonFinal(p.right, m), EPSILON, ThompsonStart(p.right, m))}
  }

  /** A character leaf: the character step builds what `Builds` describes, and its nodes are closed. */
  lemma {:induction false} CharacterBuilds(c: Symbol, n: nat)
    ensures Builds(Sigma(c), n, CharacterStep(c, n)) && Shaped(CharacterStep(c, n))
  {
    CharacterStepFacts(c, n);
    IssuedPair(n);
  }

  /** The names a star step draws are not yet in use, and its operand's accept state is a node. */
  lemma {:induction false} RepetitionReady(p: Production, n: nat, inner: NfaValue)
    requires p.Repetition? && !HasNil(p)
    requires Builds(p.expr, n, inner)
    ensures var k := n + NamesUsed(p.expr);
            inner.nodes.Keys !! {Issued(k + 1), Issued(k + 2)}
  {
    var k := n + NamesUsed(p.expr);
    IssuedLater(k + 1, n, k);
    IssuedLater(k + 2, n, k);
  }

  /** The star step's result, given what its operand builds. */
  lemma {:induction false} RepetitionBuilds(p: Production, n: nat, inner: NfaValue, v: NfaValue)
    requires p.Repetition? && !HasNil(p)
    requires Builds(p.expr, n, inner)
    requires var k := n + NamesUsed(p.expr);
             && v.nodes.Keys == inner.nodes.Keys + {Issued(k + 1), Issued(k + 2)}
             && v.start == Issued(k + 1) && v.accepts == inner.accepts && v.accept == Some([Issued(k + 2)])
             && v.alphabet == inner.alphabet
    ensures Builds(p, n, v)
  {
    IssuedExtend(n, n + NamesUsed(p.expr));
  }

  /** The operands of an alternative draw disjoint names, and the step's two names are fresh. */
  lemma {:induction false} AlternativeReady(p: Production, n: nat, left: NfaValue, right: NfaValue)
    requires p.Alternative? && !HasNil(p)
    requires Builds(p.left, n, left) && Builds(p.right, n + NamesUsed(p.left), right)
    ensures var k := n + NamesUsed(p.left) + NamesUsed(p.right);
            && left.nodes.Keys !! right.nodes.Keys
            && (left.nodes.Keys + right.nodes.Keys) !! {Issued(k + 1), Issued(k + 2)}
  {
    var m := n + NamesUsed(p.left);
    var k := m + NamesUsed(p.right);
    IssuedRangesJoin(n, m, k);
    IssuedRangesDisjoint(n, m, m, k);
    IssuedLater(k + 1, n, k);
    IssuedLater(k + 2, n, k);
  }

  /** The alternative step's result, given what its operands build. */
  lemma {:induction false} AlternativeBuilds(p: Production, n: nat, left: NfaValue, right: NfaValue, v: NfaValue)
    requires p.Alternative? && !HasNil(p)
    requires Builds(p.left, n, left) && Builds(p.right, n + NamesUsed(p.left), right)
    requires var k := n + NamesUsed(p.left) + NamesUsed(p.right);
             && v.nodes.Keys == left.nodes.Keys + right.nodes.Keys + {Issued(k + 1), Issued(k + 2)}
             && v.start == Issued(k + 1) && v.accepts == [Issued(k + 2)] && v.accept == left.accept
             && v.alphabet == left.alphabet + right.alphabet
    ensures Builds(p, n, v)
  {
    AlternativeKeys(p, n, left.nodes.Keys, right.nodes.Keys);
    AlternativeEnds(p, n);
  }

  /** The alternative's names: both operands' ranges and the step's own pair. */
  lemma {:induction false} AlternativeKeys(p: Production, n: nat, leftKeys: set<StateName>, rightKeys: set<StateName>)
    requires p.Alternative?
    requires leftKeys == IssuedNames(n, n + NamesUsed(p.left))
    requires rightKeys == IssuedNames(n + NamesUsed(p.left), n + NamesUsed(p.left) + NamesUsed(p.right))
    ensures var k := n + NamesUsed(p.left) + NamesUsed(p.right);
            leftKeys + rightKeys + {Issued(k + 1), Issued(k + 2)} == IssuedNames(n, n + NamesUsed(p))
  {
    var m := n + NamesUsed(p.left);
    IssuedJoinExtend(n, m, m + NamesUsed(p.right));
  }

  /** The alternative's start and final state are the step's own pair. */
  lemma {:induction false} AlternativeEnds(p: Production, n: nat)
    requires p.Alternative? && !HasNil(p)
    ensures var k := n + NamesUsed(p.left) + NamesUsed(p.right);
            ThompsonStart(p, n) == Issued(k + 1) && ThompsonFinal(p, n) == Issued(k + 2)
  {
  }

  /** The operands of a concatenation draw disjoint names. */
  lemma {:induction false} ConcatenationReady(p: Production, n: nat, left: NfaValue, right: NfaValue)
    requires p.Concatenation? && !HasNil(p)
    requires Builds(p.left, n, left) && Builds(p.right, n + NamesUsed(p.left), right)
    ensures left.nodes.Keys !! right.nodes.Keys
  {
    var m := n + NamesUsed(p.left);
    IssuedRangesDisjoint(n, m, m, m + NamesUsed(p.right));
  }

  /** The concatenation step's result, given what its operands build. */
  lemma {:induction false} ConcatenationBuilds(p: Production, n: nat, left: NfaValue, right: NfaValue, v: NfaValue)
    requires p.Concatenation? && !HasNil(p)
    requires Builds(p.left, n, left) && Builds(p.right, n + NamesUsed(p.left), right)
    requires && v.nodes.Keys == left.nodes.Keys + right.nodes.Keys
             && v.start == left.start && v.accepts == right.accepts && v.accept == left.accept
             && v.alphabet == left.alphabet + right.alphabet
    ensures Builds(p, n, v)
  {
    var m := n + NamesUsed(p.left);
    var k := m + NamesUsed(p.right);
    assert n + NamesUsed(p) == k;
    IssuedRangesJoin(n, m, k);
    assert v.nodes.Keys == IssuedNames(n, k);
  }

  /** `constructCharacter(c)`: two fresh states and one transition between them. */
  method ConstructCharacter(c: Symbol, names: NameSupply) returns (nfa: Nfa)
    modifies names
    ensures fresh(nfa)
    ensures names.lastId == old(names.lastId) + 2
    ensures nfa.Value() == CharacterStep(c, old(names.lastId))
  {
    var s0 := names.NextName();
    var s1 := names.NextName();
    nfa := new Nfa();
    nfa.AddNodes(CharacterNodes(s0, s1, c));
    assert nfa.nodes == CharacterNodes(s0, s1, c);
    nfa.SetStart(s0);
    nfa.SetAccepts([s1]);
    nfa.AddSymbols({c});
  }

  /**
    `constructConcatenation(left, right)`. `accepts` is overwritten with
    right's accepts before the epsilon loop, so the loop links right's
    accept states back to right's start.
  */
  method ConstructConcatenation(left: Nfa, right: Nfa)
    requires forall q :: q in right.accepts ==> q in left.nodes.Keys + right.nodes.Keys
    modifies left
    ensures left.Value() == ConcatenationStep(old(left.Value()), old(right.Value()))
  {
    ghost var merged := left.nodes + right.nodes;
    var rightStart, rightAccepts, rightAlphabet := right.start, right.accepts, right.alphabet;
    left.AddNodes(right.nodes);
    left.SetAccepts(rightAccepts);
    left.AddSymbols(rightAlphabet);
    var i := 0;
    while i < |left.accepts|
      invariant 0 <= i <= |left.accepts| && left.accepts == rightAccepts
      invariant left.nodes == LinkAccepts(merged, rightAccepts[..i], rightStart)
      invariant left.start == old(left.start) && left.alphabet == old(left.alphabet) + rightAlphabet
      invariant left.accept == old(left.accept)
    {
      assert rightAccepts[..i + 1][..i] == rightAccepts[..i];
      left.AddNodeTransition(left.accepts[i], rightStart, EPSILON);
      i := i + 1;
    }
    assert rightAccepts[..i] == rightAccepts;
  }

  /**
    `constructAlternative(left, right)`: right merged into left, a fresh
    start with epsilon edges to both old starts, and a fresh accept reached
    by epsilon from both old `accepts[0]`.
  */
  method ConstructAlternative(left: Nfa, right: Nfa, names: NameSupply)
    requires |left.accepts| > 0 && |right.accepts| > 0
    requires left.accepts[0] in left.nodes.Keys + right.nodes.Keys + {Issued(names.lastId + 1), Issued(names.lastId + 2)}
    requires right.accepts[0] in left.nodes.Keys + right.nodes.Keys + {Issued(names.lastId + 1), Issued(names.lastId + 2)}
    modifies left, names
    ensures names.lastId == old(names.lastId) + 2
    ensures left.Value() == AlternativeStep(old(left.Value()), old(right.Value()), old(names.lastId))
  {
    var leftStart, leftAccept := left.start, left.accepts[0];
    var rightStart, rightAccept, rightAlphabet := right.start, right.accepts[0], right.alphabet;
    left.AddNodes(right.nodes);
    left.AddSymbols(rightAlphabet);
    var newStart := names.NextName();
    var newAccept := names.NextName();
    left.AddNodes(NewNodes(newStart, newAccept));
    AddAlternativeLinks(left, leftStart, leftAccept, rightStart, rightAccept, newStart, newAccept);
    left.SetStart(newStart);
    left.SetAccepts([newAccept]);
  }

  /** Lines 85-88: the four epsilon transitions of the alternative. */
  method AddAlternativeLinks(left: Nfa, leftStart: StateName, leftAccept: StateName,
                             rightStart: StateName, rightAccept: StateName, newStart: StateName, newAccept: StateName)
    requires newStart in left.nodes && leftAccept in left.nodes && rightAccept in left.nodes
    modifies left
    ensures left.nodes == AddEdges(old(left.nodes), AlternativeLinks(leftStart, leftAccept, rightStart, rightAccept, newStart, newAccept))
    ensures left.start == old(left.start) && left.accepts == old(left.accepts)
    ensures left.alphabet == old(left.alphabet) && left.accept == old(left.accept)
  {
    left.AddNodeTransition(newStart, leftStart, EPSILON);
    left.AddNodeTransition(newStart, rightStart, EPSILON);
    left.AddNodeTransition(leftAccept, newAccept, EPSILON);
    left.AddNodeTransition(rightAccept, newAccept, EPSILON);
    AddFourEdges(old(left.nodes), AlternativeLinks(leftStart, leftAccept, rightStart, rightAccept, newStart, newAccept));
  }

  /**
    `constructRepetition(left)`: the four epsilon edges of the star and a
    fresh start; the fresh accept is stored under `accept` (line 117).
  */
  method ConstructRepetition(left: Nfa, names: NameSupply)
    requires |left.accepts| > 0 && left.accepts[0] in left.nodes.Keys + {Issued(names.lastId + 1), Issued(names.lastId + 2)}
    modifies left, names
    ensures names.lastId == old(names.lastId) + 2
    ensures left.Value() == RepetitionStep(old(left.Value()), old(names.lastId))
  {
    var oldStart, oldAccept := left.start, left.accepts[0];
    var newStart := names.NextName();
    var newAccept := names.NextName();
    left.AddNodes(NewNodes(newStart, newAccept));
    AddStarLinks(left, oldStart, oldAccept, newStart, newAccept);
    left.SetStart(newStart);
    left.SetAccept(Some([newAccept]));
  }

  /** Lines 108-113: the four epsilon transitions of the star. */
  method AddStarLinks(left: Nfa, start: StateName, accept: StateName, newStart: StateName, newAccept: StateName)
    requires newStart in left.nodes && accept in left.nodes
    modifies left
    ensures left.nodes == AddEdges(old(left.nodes), StarLinks(start, accept, newStart, newAccept))
    ensures left.start == old(left.start) && left.accepts == old(left.accepts)
    ensures left.alphabet == old(left.alphabet) && left.accept == old(left.accept)
  {
    left.AddNodeTransition(newStart, start, EPSILON);
    left.AddNodeTransition(newStart, newAccept, EPSILON);
    left.AddNodeTransition(accept, newAccept, EPSILON);
    left.AddNodeTransition(accept, start, EPSILON);
    AddFourEdges(old(left.nodes), StarLinks(start, accept, newStart, newAccept));
  }

  /** A nil expression sits below the root: `convertRegexToNFA` raises `AttributeError` on it. */
  predicate RaisesOnNil(p: Production)
  {
    HasNil(p) && !p.NilExpression?
  }

  /**
    How many names `convertRegexToNFA` draws from the counter for `p`,
    whatever its outcome. A raising operand stops the conversion at once;
    a star on `None` still draws its two names (line 104) before failing at
    line 105; an alternative or concatenation with a `None` operand fails at
    line 76 or 57, before drawing any.
  */
  function NamesDrawn(p: Production): nat
  {
    match p
    case Sigma(_) => 2
    case Repetition(e) => if RaisesOnNil(e) then NamesDrawn(e) else NamesDrawn(e) + 2
    case Alternative(l, r) =>
      if RaisesOnNil(l) then NamesDrawn(l)
      else if HasNil(l) || HasNil(r) then NamesDrawn(l) + NamesDrawn(r)
      else NamesDrawn(l) + NamesDrawn(r) + 2
    case Concatenation(l, r) => if RaisesOnNil(l) then NamesDrawn(l) else NamesDrawn(l) + NamesDrawn(r)
    case NilExpression => 0
  }

  /** A tree without nil expressions draws exactly the names its automaton uses. */
  lemma {:induction false} NamesDrawnWhenBuilt(p: Production)
    requires !HasNil(p)
    ensures NamesDrawn(p) == NamesUsed(p)
  {
    match p
    case Sigma(_) =>
    case Repetition(e) => NamesDrawnWhenBuilt(e);
    case Alternative(l, r) => NamesDrawnWhenBuilt(l); NamesDrawnWhenBuilt(r);
    case Concatenation(l, r) => NamesDrawnWhenBuilt(l); NamesDrawnWhenBuilt(r);
  }

  /** A star over a bare nil expression fails after drawing two names, which a later conversion cannot reuse. */
  lemma StarOfNilDrawsTwo()
    ensures NamesDrawn(Repetition(NilExpression)) == 2
    ensures NamesDrawn(Repetition(Repetition(NilExpression))) == 2
    ensures NamesDrawn(Alternative(NilExpression, Sigma("a"))) == 2
  {
  }

  /** What `convertRegexToNFA` returns: an automaton object, `None`, or a raised `AttributeError`. */
  datatype Converted = Built(nfa: Nfa) | NoneReturned | AttributeError

  /**
    `convertRegexToNFA(node)`: `None` exactly for a nil expression at the
    root, an `AttributeError` exactly when a nil expression sits deeper and
    hands `None` to a construct step, and otherwise a fresh automaton equal
    to the reference `Thompson(p, n)` (whose nodes, start, accept list,
    alphabet and transitions `ThompsonFacts` states). Whatever the
    outcome, the counter has moved by `NamesDrawn(p)`, which is
    `NamesUsed(p)` when the automaton is built.
  */
  method ConvertRegexToNfa(p: Production, names: NameSupply) returns (r: Converted)
    modifies names
    ensures r.NoneReturned? <==> p.NilExpression?
    ensures r.Built? <==> !HasNil(p)
    ensures names.lastId == old(names.lastId) + NamesDrawn(p)
    ensures r.Built? ==> && fresh(r.nfa)
                          && names.lastId == old(names.lastId) + NamesUsed(p)
                          && IsThompson(p, old(names.lastId), r.nfa.Value())
    decreases p, 1
  {
    match p {
      case Sigma(sigma) =>
        var nfa := ConstructCharacter(sigma, names);
        r := Built(nfa);
      case Repetition(_) =>
        r := ConvertRepetition(p, names);
      case Alternative(_, _) =>
        r := ConvertAlternative(p, names);
      case Concatenation(_, _) =>
        r := ConvertConcatenation(p, names);
      case NilExpression =>
        r := NoneReturned;
    }
  }

  /** The repetition branch of `convertRegexToNFA` (lines 130-132). */
  method ConvertRepetition(p: Production, names: NameSupply) returns (r: Converted)
    requires p.Repetition?
    modifies names
    ensures !r.NoneReturned?
    ensures r.Built? <==> !HasNil(p)
    ensures names.lastId == old(names.lastId) + NamesDrawn(p)
    ensures r.Built? ==> && fresh(r.nfa)
                          && names.lastId == old(names.lastId) + NamesUsed(p)
                          && IsThompson(p, old(names.lastId), r.nfa.Value())
    decreases p, 0
  {
    ghost var n := names.lastId;
    var inner := ConvertRegexToNfa(p.expr, names);
    if inner.AttributeError? {
      r := AttributeError;
      return;
    }
    if inner.NoneReturned? {
      // Line 104 draws both fresh names before line 105 touches `None`.
      var newStart := names.NextName();
      var newAccept := names.NextName();
      r := AttributeError;
      return;
    }
    NamesDrawnWhenBuilt(p.expr);
    CombineRepetition(p, n, inner.nfa, names);
    r := inner;
  }

  /** Line 132 once the operand is built: the star step on the operand's reference. */
  method CombineRepetition(ghost p: Production, ghost n: nat, inner: Nfa, names: NameSupply)
    requires p.Repetition? && !HasNil(p)
    requires names.lastId == n + NamesUsed(p.expr) && IsThompson(p.expr, n, inner.Value())
    modifies inner, names
    ensures names.lastId == old(names.lastId) + 2
    ensures IsThompson(p, n, inner.Value())
  {
    ThompsonAccepting(p.expr, n);
    ThompsonRepetition(p, n, inner.Value());
    ConstructRepetition(inner, names);
  }

  /** The alternative branch of `convertRegexToNFA` (lines 133-136). */
  method ConvertAlternative(p: Production, names: NameSupply) returns (r: Converted)
    requires p.Alternative?
    modifies names
    ensures !r.NoneReturned?
    ensures r.Built? <==> !HasNil(p)
    ensures names.lastId == old(names.lastId) + NamesDrawn(p)
    ensures r.Built? ==> && fresh(r.nfa)
                          && names.lastId == old(names.lastId) + NamesUsed(p)
                          && IsThompson(p, old(names.lastId), r.nfa.Value())
    decreases p, 0
  {
    ghost var n := names.lastId;
    var left := ConvertRegexToNfa(p.left, names);
    if left.AttributeError? {
      r := AttributeError;
      return;
    }
    var right := ConvertRegexToNfa(p.right, names);
    if !left.Built? || !right.Built? {
      r := AttributeError;
      return;
    }
    NamesDrawnWhenBuilt(p.left);
    NamesDrawnWhenBuilt(p.right);
    CombineAlternative(p, n, left.nfa, right.nfa, names);
    r := left;
  }

  /** Line 136 once both operands are built: the alternative step on the operands' references. */
  method CombineAlternative(ghost p: Production, ghost n: nat, left: Nfa, right: Nfa, names: NameSupply)
    requires p.Alternative? && !HasNil(p)
    requires names.lastId == n + NamesUsed(p.left) + NamesUsed(p.right)
    requires IsThompson(p.left, n, left.Value()) && IsThompson(p.right, n + NamesUsed(p.left), right.Value())
    modifies left, names
    ensures names.lastId == old(names.lastId) + 2
    ensures IsThompson(p, n, left.Value())
  {
    ThompsonAccepting(p.left, n);
    ThompsonAccepting(p.right, n + NamesUsed(p.left));
    ThompsonAlternative(p, n, left.Value(), right.Value());
    ConstructAlternative(left, right, names);
  }

  /** The reference has an accept state, among its nodes. */
  lemma {:induction false} ThompsonAccepting(p: Production, n: nat)
    requires !HasNil(p)
    ensures |Thompson(p, n).accepts| > 0 && Thompson(p, n).accepts[0] in Thompson(p, n).nodes
  {
    ThompsonBuilds(p, n);
  }

  /** The concatenation branch of `convertRegexToNFA` (lines 137-140). */
  method ConvertConcatenation(p: Production, names: NameSupply) returns (r: Converted)
    requires p.Concatenation?
    modifies names
    ensures !r.NoneReturned?
    ensures r.Built? <==> !HasNil(p)
    ensures names.lastId == old(names.lastId) + NamesDrawn(p)
    ensures r.Built? ==> && fresh(r.nfa)
                          && names.lastId == old(names.lastId) + NamesUsed(p)
                          && IsThompson(p, old(names.lastId), r.nfa.Value())
    decreases p, 0
  {
    ghost var n := names.lastId;
    var left := ConvertRegexToNfa(p.left, names);
    if left.AttributeError? {
      r := AttributeError;
      return;
    }
    var right := ConvertRegexToNfa(p.right, names);
    if !left.Built? || !right.Built? {
      r := AttributeError;
      return;
    }
    NamesDrawnWhenBuilt(p.left);
    NamesDrawnWhenBuilt(p.right);
    CombineConcatenation(p, n, left.nfa, right.nfa);
    r := left;
  }

  /** Line 140 once both operands are built: the concatenation step on the operands' references. */
  method CombineConcatenation(ghost p: Production, ghost n: nat, left: Nfa, right: Nfa)
    requires p.Concatenation? && !HasNil(p)
    requires IsThompson(p.left, n, left.Value()) && IsThompson(p.right, n + NamesUsed(p.left), right.Value())
    modifies left
    ensures IsThompson(p, n, left.Value())
  {
    ThompsonAccepting(p.right, n + NamesUsed(p.left));
    ThompsonConcatenation(p, n, left.Value(), right.Value());
    ConstructConcatenation(left, right);
  }
}
