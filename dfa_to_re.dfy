/**
  The set-up of the algebraic method in dfa_to_re.py: the matrix `A` and
  the vector `B` of the system `X = AX | B` of Arden's lemma, read off a
  constructor-built automaton. States are numbered by their position in
  `states`; `A[i][j]` holds a symbol of a transition from state `i` to
  state `j` (the last one the loops meet) and `B[i]` holds `EPSILON`
  exactly for accepting states.
*/
module DfaToRe {
  import opened Wrappers
  import opened Names
  import opened Automata

  /** A cell of `A` or `B`: a symbol, or Python's `None`. */
  type Entry = Option<Symbol>

  /** The pair `(A, B)` that `buildArdenSystems` returns. */
  datatype ArdenSystem = ArdenSystem(A: seq<seq<Entry>>, B: seq<Entry>)

  /**
    Line 36, `stateNumMap`: each listed name to its position. A dictionary
    comprehension keeps the last value written for a key, so a name listed
    twice is numbered by its last position (`NumberIsLastPosition`).
  */
  function StateNumbers(states: seq<StateName>): (num: map<StateName, nat>)
    ensures num.Keys == Elements(states)
  {
    if states == [] then map[]
    else
      var n := |states| - 1;
      ElementsInit(states);
      StateNumbers(states[..n])[states[n] := n]
  }

  /** `p` is the last position of `q` in `states`. */
  ghost predicate LastPosition(states: seq<StateName>, q: StateName, p: nat)
  {
    p < |states| && states[p] == q && forall k :: p < k < |states| ==> states[k] != q
  }

  /** A listed name is numbered by the last position it occupies. */
  lemma {:induction false} NumberIsLastPosition(states: seq<StateName>, q: StateName)
    requires q in states
    ensures q in StateNumbers(states) && LastPosition(states, q, StateNumbers(states)[q])
  {
    var n := |states| - 1;
    var init := states[..n];
    assert q in Elements(states);
    assert StateNumbers(states) == StateNumbers(init)[states[n] := n];
    if states[n] != q {
      assert q in init by {
        var k :| 0 <= k < |states| && states[k] == q;
        assert init[k] == q;
      }
      NumberIsLastPosition(init, q);
      var p := StateNumbers(init)[q];
      assert states[p] == init[p];
      forall k | p < k < |states|
        ensures states[k] != q
      {
        if k < n {
          assert states[k] == init[k];
        }
      }
    }
  }

  /** Every number is a position of `states`. */
  lemma NumbersBelow(states: seq<StateName>)
    ensures forall q :: q in StateNumbers(states) ==> StateNumbers(states)[q] < |states|
  {
    forall q | q in StateNumbers(states) ensures StateNumbers(states)[q] < |states| {
      assert q in Elements(states);
      NumberIsLastPosition(states, q);
    }
  }

  /** Without repeated names, lines 35-36 number state `k` by `k`. */
  lemma NumberedByPosition(states: seq<StateName>, k: nat)
    requires NoDuplicates(states) && k < |states|
    ensures states[k] in StateNumbers(states) && StateNumbers(states)[states[k]] == k
  {
    NumberIsLastPosition(states, states[k]);
  }

  /** The last symbol of `order` that lies in `hit`, or `None` when there is none. */
  function LastIn(order: seq<Symbol>, hit: set<Symbol>): Entry
  {
    if order == [] then None
    else
      var n := |order| - 1;
      if order[n] in hit then Some(order[n]) else LastIn(order[..n], hit)
  }

  /** `LastIn` is `None` exactly when no symbol of `order` lies in `hit`. */
  lemma {:induction false} LastInNone(order: seq<Symbol>, hit: set<Symbol>)
    ensures LastIn(order, hit) == None <==> forall k :: 0 <= k < |order| ==> order[k] !in hit
  {
    if order != [] {
      var n := |order| - 1;
      LastInNone(order[..n], hit);
      assert forall k :: 0 <= k < n ==> order[..n][k] == order[k];
    }
  }

  /** `order[k]` lies in `hit`, and no later symbol of `order` does. */
  ghost predicate LastHitAt(order: seq<Symbol>, hit: set<Symbol>, k: nat)
  {
    k < |order| && order[k] in hit && forall l :: k < l < |order| ==> order[l] !in hit
  }

  /** A symbol `LastIn` returns is the last symbol of `order` that lies in `hit`. */
  lemma {:induction false} LastInLast(order: seq<Symbol>, hit: set<Symbol>)
    requires LastIn(order, hit) != None
    ensures exists k: nat :: LastHitAt(order, hit, k) && order[k] == LastIn(order, hit).value
  {
    var n := |order| - 1;
    if order[n] in hit {
      assert LastHitAt(order, hit, n);
    } else {
      var init := order[..n];
      LastInLast(init, hit);
      var k: nat :| LastHitAt(init, hit, k) && init[k] == LastIn(init, hit).value;
      forall l | k < l < |order| ensures order[l] !in hit {
        if l < n {
          assert order[l] == init[l];
        }
      }
      assert order[k] == init[k];
      assert LastHitAt(order, hit, k);
    }
  }

  /** Appending one symbol changes `LastIn` exactly when that symbol lies in `hit`. */
  lemma LastInSnoc(order: seq<Symbol>, hit: set<Symbol>, symbol: Symbol)
    ensures LastIn(order + [symbol], hit) == if symbol in hit then Some(symbol) else LastIn(order, hit)
  {
    assert (order + [symbol])[..|order|] == order;
  }

  /** Some target of `q` on `symbol` is numbered `j`: line 44 writes `symbol` into column `j`. */
  ghost predicate Hits(ts: seq<Triple>, num: map<StateName, nat>, q: StateName, symbol: Symbol, j: nat)
  {
    exists t :: t in TargetsIn(ts, q, symbol) && t in num && num[t] == j
  }

  /** The node's symbols that write into column `j`. */
  ghost function Hitting(ts: seq<Triple>, num: map<StateName, nat>, q: StateName, j: nat): set<Symbol>
  {
    set symbol | symbol in SymbolsFrom(ts, q) && Hits(ts, num, q, symbol, j)
  }

  /**
    Cell `A[i][j]` after the symbols `order` of state `q` have been
    visited: the last of them that writes into column `j`, or `None`.
  */
  ghost function Cell(ts: seq<Triple>, num: map<StateName, nat>, q: StateName, order: seq<Symbol>, j: nat): Entry
  {
    LastIn(order, Hitting(ts, num, q, j))
  }

  /** Without repeated names, a symbol writes into column `j` exactly when it leads to state `j`. */
  lemma HittingMeaning(a: Dfa, q: StateName, j: nat, symbol: Symbol)
    requires NoDuplicates(a.states) && j < |a.states|
    ensures symbol in Hitting(a.transitions, StateNumbers(a.states), q, j) <==>
            a.states[j] in TargetsIn(a.transitions, q, symbol)
  {
    var ts, num := a.transitions, StateNumbers(a.states);
    NumberedByPosition(a.states, j);
    if symbol in Hitting(ts, num, q, j) {
      var t :| t in TargetsIn(ts, q, symbol) && t in num && num[t] == j;
      assert t in Elements(a.states);
      NumberIsLastPosition(a.states, t);
    }
    if a.states[j] in TargetsIn(ts, q, symbol) {
      TargetsInMembers(ts, q, symbol, a.states[j]);
      assert symbol in SymbolsFrom(ts, q);
    }
  }

  /** The targets of the listed state `q` on every symbol are numbered. */
  ghost predicate TargetsNumbered(ts: seq<Triple>, num: map<StateName, nat>, q: StateName)
  {
    forall symbol, t :: t in TargetsIn(ts, q, symbol) ==> t in num
  }

  /** Every transition out of a listed state goes to a listed state: line 44 raises no `KeyError`. */
  ghost predicate TargetsListed(a: Dfa)
  {
    forall q, symbol, t :: q in a.states && t in TargetsIn(a.transitions, q, symbol) ==> t in a.states
  }

  /**
    Row `q` of `A` as the symbols `order` leave it: one cell per state,
    each holding `Cell`, and every target met so far numbered.
  */
  ghost predicate RowAfter(ts: seq<Triple>, num: map<StateName, nat>, q: StateName, order: seq<Symbol>,
                           row: seq<Entry>, m: nat)
  {
    && |row| == m
    && (forall j :: 0 <= j < m ==> row[j] == Cell(ts, num, q, order, j))
    && (forall k, t :: 0 <= k < |order| && t in TargetsIn(ts, q, order[k]) ==> t in num)
  }

  /** Some of the targets `targets[..k]` is numbered `j`. */
  ghost predicate HitsIn(num: map<StateName, nat>, targets: seq<StateName>, j: nat)
  {
    exists t :: t in targets && t in num && num[t] == j
  }

  /** The invariant of the target loop (line 43) after `k` targets. */
  ghost predicate Marked(num: map<StateName, nat>, targets: seq<StateName>, k: nat, symbol: Symbol,
                         row0: seq<Entry>, row: seq<Entry>)
    requires k <= |targets|
  {
    && |row| == |row0|
    && (forall t :: t in targets[..k] ==> t in num)
    && (forall j :: 0 <= j < |row| ==> row[j] == if HitsIn(num, targets[..k], j) then Some(symbol) else row0[j])
  }

  lemma MarkStep(num: map<StateName, nat>, targets: seq<StateName>, k: nat, symbol: Symbol,
                 row0: seq<Entry>, row: seq<Entry>)
    requires k < |targets| && Marked(num, targets, k, symbol, row0, row)
    requires targets[k] in num && num[targets[k]] < |row|
    ensures Marked(num, targets, k + 1, symbol, row0, row[num[targets[k]] := Some(symbol)])
  {
    var t := targets[k];
    assert targets[..k + 1] == targets[..k] + [t];
    forall j | 0 <= j < |row|
      ensures HitsIn(num, targets[..k + 1], j) <==> HitsIn(num, targets[..k], j) || num[t] == j
    {
      if HitsIn(num, targets[..k + 1], j) && num[t] != j {
        var u :| u in targets[..k + 1] && u in num && num[u] == j;
        assert u in targets[..k];
      }
      if num[t] == j {
        assert t in targets[..k + 1];
      }
    }
  }

  /**
    Lines 43-44 for one symbol: each target's column of the row is set to
    the symbol; a target without a number raises `KeyError`.
  */
  method MarkTargets(num: map<StateName, nat>, targets: seq<StateName>, symbol: Symbol, row0: seq<Entry>)
    returns (raised: Option<Raised>, row: seq<Entry>)
    requires forall t :: t in num ==> num[t] < |row0|
    ensures raised == None ==> Marked(num, targets, |targets|, symbol, row0, row)
    ensures raised != None ==> raised == Some(KeyError) && exists t :: t in targets && t !in num
  {
    raised, row := None, row0;
    for k := 0 to |targets|
      invariant Marked(num, targets, k, symbol, row0, row)
    {
      var t := targets[k];
      if t !in num {
        return Some(KeyError), row;
      }
      MarkStep(num, targets, k, symbol, row0, row);
      row := row[num[t] := Some(symbol)];
    }
    assert targets[..|targets|] == targets;
  }

  /** The symbols seen so far and those left make up `all`, without overlap or repetition. */
  ghost predicate Visited(order: seq<Symbol>, rest: set<Symbol>, all: set<Symbol>)
  {
    NoDuplicates(order) && Elements(order) * rest == {} && Elements(order) + rest == all
  }

  lemma VisitSymbol(order: seq<Symbol>, rest: set<Symbol>, all: set<Symbol>, symbol: Symbol)
    requires Visited(order, rest, all) && symbol in rest
    ensures Visited(order + [symbol], rest - {symbol}, all)
  {
    assert symbol !in Elements(order) * rest;
    AppendIfAbsent(order, symbol);
    assert Elements(order + [symbol]) + (rest - {symbol}) == Elements(order) + rest;
  }

  /** One symbol's targets, all numbered and marked, carry the row to the longer order. */
  lemma RowStep(ts: seq<Triple>, num: map<StateName, nat>, q: StateName, order: seq<Symbol>, symbol: Symbol,
                row0: seq<Entry>, row: seq<Entry>, m: nat)
    requires symbol in SymbolsFrom(ts, q) && RowAfter(ts, num, q, order, row0, m)
    requires Marked(num, TargetsIn(ts, q, symbol), |TargetsIn(ts, q, symbol)|, symbol, row0, row)
    ensures RowAfter(ts, num, q, order + [symbol], row, m)
  {
    var targets := TargetsIn(ts, q, symbol);
    assert targets[..|targets|] == targets;
    forall j | 0 <= j < m
      ensures row[j] == Cell(ts, num, q, order + [symbol], j)
    {
      LastInSnoc(order, Hitting(ts, num, q, j), symbol);
      assert HitsIn(num, targets, j) == Hits(ts, num, q, symbol, j);
    }
    forall k, t | 0 <= k < |order + [symbol]| && t in TargetsIn(ts, q, (order + [symbol])[k])
      ensures t in num
    {
      if k < |order| {
        assert (order + [symbol])[k] == order[k];
      }
    }
  }

  /** A symbol outside the node's keys has no targets, so every symbol's targets are numbered. */
  lemma RowNumbered(ts: seq<Triple>, num: map<StateName, nat>, q: StateName, order: seq<Symbol>,
                    row: seq<Entry>, m: nat)
    requires RowAfter(ts, num, q, order, row, m) && Elements(order) == SymbolsFrom(ts, q)
    ensures TargetsNumbered(ts, num, q)
  {
    forall symbol, t | t in TargetsIn(ts, q, symbol)
      ensures t in num
    {
      TargetsInMembers(ts, q, symbol, t);
      var k :| 0 <= k < |ts| && ts[k].from == q && symbol in ts[k].symbols && ts[k].to == t;
      assert symbol in SymbolsFrom(ts, q);
      var p :| 0 <= p < |order| && order[p] == symbol;
    }
  }

  /** The row of all `None` that line 39 builds is the row before any symbol. */
  lemma RowStart(ts: seq<Triple>, num: map<StateName, nat>, q: StateName, row: seq<Entry>)
    requires forall j :: 0 <= j < |row| ==> row[j] == None
    ensures RowAfter(ts, num, q, [], row, |row|)
  {
  }

  /**
    Lines 41-44 for the row of the listed state `q`: its symbols are
    visited in the order `order`, a permutation of the node's keys that
    the model leaves open.
  */
  method FillRow(a: Dfa, num: map<StateName, nat>, q: StateName, row0: seq<Entry>)
    returns (raised: Option<Raised>, row: seq<Entry>, ghost order: seq<Symbol>)
    requires q in a.states
    requires forall t :: t in num ==> num[t] < |row0|
    requires forall j :: 0 <= j < |row0| ==> row0[j] == None
    ensures raised == None ==>
      && NoDuplicates(order) && Elements(order) == SymbolsFrom(a.transitions, q)
      && RowAfter(a.transitions, num, q, order, row, |row0|) && TargetsNumbered(a.transitions, num, q)
    ensures raised != None ==> raised == Some(KeyError) && !TargetsNumbered(a.transitions, num, q)
  {
    var node := Nodes(a)[q];
    assert node == NodeOf(a, q);
    var rest := node.transitions.Keys;
    raised, row, order := None, row0, [];
    RowStart(a.transitions, num, q, row0);
    while rest != {}
      invariant raised == None && Visited(order, rest, SymbolsFrom(a.transitions, q))
      invariant RowAfter(a.transitions, num, q, order, row, |row0|)
      decreases rest
    {
      var symbol :| symbol in rest;
      assert node.transitions[symbol] == TargetsIn(a.transitions, q, symbol);
      var marked;
      ghost var before := row;
      raised, marked := MarkTargets(num, node.transitions[symbol], symbol, row);
      if raised != None {
        ghost var t :| t in node.transitions[symbol] && t !in num;
        assert t in TargetsIn(a.transitions, q, symbol);
        return;
      }
      RowStep(a.transitions, num, q, order, symbol, before, marked, |row0|);
      VisitSymbol(order, rest, SymbolsFrom(a.transitions, q), symbol);
      row, order, rest := marked, order + [symbol], rest - {symbol};
    }
    RowNumbered(a.transitions, num, q, order, row, |row0|);
  }

  /** The rows `A[..i]` are filled and the rows from `i` on are still all `None`. */
  ghost predicate RowsFilled(a: Dfa, num: map<StateName, nat>, orders: seq<seq<Symbol>>, A: seq<seq<Entry>>, i: nat)
    requires i <= |a.states|
  {
    var m := |a.states|;
    && |A| == m && |orders| == i
    && (forall k :: 0 <= k < m ==> |A[k]| == m)
    && (forall k :: 0 <= k < i ==>
          && NoDuplicates(orders[k]) && Elements(orders[k]) == SymbolsFrom(a.transitions, a.states[k])
          && RowAfter(a.transitions, num, a.states[k], orders[k], A[k], m)
          && TargetsNumbered(a.transitions, num, a.states[k]))
    && (forall k, j :: i <= k < m && 0 <= j < m ==> A[k][j] == None)
  }

  lemma FillStep(a: Dfa, num: map<StateName, nat>, orders: seq<seq<Symbol>>, A: seq<seq<Entry>>, i: nat,
                 order: seq<Symbol>, row: seq<Entry>)
    requires i < |a.states| && RowsFilled(a, num, orders, A, i)
    requires NoDuplicates(order) && Elements(order) == SymbolsFrom(a.transitions, a.states[i])
    requires RowAfter(a.transitions, num, a.states[i], order, row, |a.states|)
    requires TargetsNumbered(a.transitions, num, a.states[i])
    ensures RowsFilled(a, num, orders + [order], A[i := row], i + 1)
  {
    var orders' := orders + [order];
    forall k | 0 <= k < i ensures orders'[k] == orders[k] { }
  }

  /** A `KeyError` in row `q` names a transition to an unlisted state. */
  lemma UnlistedTarget(a: Dfa, q: StateName)
    requires q in a.states && !TargetsNumbered(a.transitions, StateNumbers(a.states), q)
    ensures !TargetsListed(a)
  {
    var symbol, t :| t in TargetsIn(a.transitions, q, symbol) && t !in StateNumbers(a.states);
    assert t !in Elements(a.states);
  }

  /** With every row filled without error, every transition target is listed. */
  lemma AllListed(a: Dfa, orders: seq<seq<Symbol>>, A: seq<seq<Entry>>)
    requires RowsFilled(a, StateNumbers(a.states), orders, A, |a.states|)
    ensures TargetsListed(a)
  {
    var num := StateNumbers(a.states);
    forall q, symbol, t | q in a.states && t in TargetsIn(a.transitions, q, symbol)
      ensures t in a.states
    {
      var k :| 0 <= k < |a.states| && a.states[k] == q;
      assert TargetsNumbered(a.transitions, num, a.states[k]);
      assert t in Elements(a.states);
    }
  }

  /** The vector `B` after `i` states: `EPSILON` for accepting states, `None` for the others. */
  ghost predicate AcceptVector(a: Dfa, B: seq<Entry>, i: nat)
  {
    && |B| == i && i <= |a.states|
    && forall k :: 0 <= k < i ==> B[k] == if a.states[k] in a.accepts then Some(EPSILON) else None
  }

  /**
    The system `buildArdenSystems` returns, with `orders[i]` the order in
    which row `i` visited its symbols.
  */
  ghost predicate ArdenOf(a: Dfa, orders: seq<seq<Symbol>>, s: ArdenSystem)
  {
    && RowsFilled(a, StateNumbers(a.states), orders, s.A, |a.states|)
    && AcceptVector(a, s.B, |a.states|)
  }

  /** Lines 39-44: the matrix `A`, filled row by row from the all-`None` matrix. */
  method FillMatrix(a: Dfa, num: map<StateName, nat>)
    returns (raised: Option<Raised>, A: seq<seq<Entry>>, ghost orders: seq<seq<Symbol>>)
    requires num == StateNumbers(a.states)
    ensures raised == None ==> RowsFilled(a, num, orders, A, |a.states|)
    ensures raised != None ==> raised == Some(KeyError) && !TargetsListed(a)
  {
    var m := |a.states|;
    NumbersBelow(a.states);
    A := seq(m, _ => seq(m, _ => None));
    raised, orders := None, [];
    for i := 0 to m
      invariant raised == None && RowsFilled(a, num, orders, A, i)
    {
      var row; ghost var order;
      raised, row, order := FillRow(a, num, a.states[i], A[i]);
      if raised != None {
        UnlistedTarget(a, a.states[i]);
        return;
      }
      FillStep(a, num, orders, A, i, order, row);
      A, orders := A[i := row], orders + [order];
    }
  }

  /** Lines 47-49: the vector `B`, one entry appended per state. */
  method AcceptEntries(a: Dfa) returns (B: seq<Entry>)
    ensures AcceptVector(a, B, |a.states|)
  {
    var nodes := Nodes(a);
    B := [];
    for i := 0 to |a.states|
      invariant AcceptVector(a, B, i)
    {
      assert a.states[i] in Elements(a.states);
      B := B + [if nodes[a.states[i]].accept then Some(EPSILON) else None];
    }
  }

  /**
    `buildArdenSystems` (lines 27-51). It raises `KeyError` exactly when
    some transition of a listed state leads to a state that is not listed.
  */
  method BuildArdenSystems(a: Dfa) returns (r: Result<ArdenSystem, Raised>, ghost orders: seq<seq<Symbol>>)
    ensures r.Err? ==> r.error == KeyError && !TargetsListed(a)
    ensures r.Ok? ==> TargetsListed(a) && ArdenOf(a, orders, r.value)
  {
    var num := StateNumbers(a.states);
    var raised, A;
    raised, A, orders := FillMatrix(a, num);
    if raised != None {
      return Err(KeyError), orders;
    }
    AllListed(a, orders, A);
    var B := AcceptEntries(a);
    r := Ok(ArdenSystem(A, B));
  }

  /**
    Without repeated names, a cell of `A` is `None` exactly when no
    transition leads from state `i` to state `j`; otherwise it holds a
    symbol of such a transition, and no symbol visited after it in row
    `i` leads there as well.
  */
  lemma CellMeaning(a: Dfa, orders: seq<seq<Symbol>>, s: ArdenSystem, i: nat, j: nat)
    requires NoDuplicates(a.states) && ArdenOf(a, orders, s)
    requires i < |a.states| && j < |a.states|
    ensures s.A[i][j] == None <==> forall symbol :: a.states[j] !in TargetsIn(a.transitions, a.states[i], symbol)
    ensures s.A[i][j] != None ==>
      && a.states[j] in TargetsIn(a.transitions, a.states[i], s.A[i][j].value)
      && exists k :: 0 <= k < |orders[i]| && orders[i][k] == s.A[i][j].value &&
           forall l :: k < l < |orders[i]| ==> a.states[j] !in TargetsIn(a.transitions, a.states[i], orders[i][l])
  {
    var num, ts, q := StateNumbers(a.states), a.transitions, a.states[i];
    var hit := Hitting(ts, num, q, j);
    forall symbol
      ensures symbol in hit <==> a.states[j] in TargetsIn(ts, q, symbol)
    {
      HittingMeaning(a, q, j, symbol);
    }
    assert s.A[i][j] == LastIn(orders[i], hit);
    LastInNone(orders[i], hit);
    if s.A[i][j] == None {
      forall symbol
        ensures symbol !in hit
      {
        if symbol in Elements(orders[i]) {
          var p :| 0 <= p < |orders[i]| && orders[i][p] == symbol;
        }
      }
    } else {
      LastInLast(orders[i], hit);
      var k: nat :| LastHitAt(orders[i], hit, k) && orders[i][k] == s.A[i][j].value;
      assert a.states[j] in TargetsIn(ts, q, s.A[i][j].value);
    }
  }

  /** `B[i]` is `EPSILON` exactly for an accepting state `i`, and `None` otherwise. */
  lemma AcceptMeaning(a: Dfa, orders: seq<seq<Symbol>>, s: ArdenSystem, i: nat)
    requires ArdenOf(a, orders, s) && i < |a.states|
    ensures |s.B| == |a.states| && |s.A| == |a.states| && |s.A[i]| == |a.states|
    ensures s.B[i] == Some(EPSILON) <==> a.states[i] in a.accepts
    ensures s.B[i] == None <==> a.states[i] !in a.accepts
  {
  }
}
