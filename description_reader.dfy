/**
  The prefix-notation regex builder: a one-token-lookahead recursive
  descent from a token list to a `Production` tree and the leftover
  tokens. Together with `Regex.ToString` it forms a printer/parser pair.
*/
module DescriptionReader {
  import opened Wrappers
  import opened Regex
  import opened Names

  /**
    Why a build fails: `tokens[0]` on an empty list (an `IndexError`), or
    a binary operator whose left operand used up every token. The code
    at description_reader.py:136 and 148 raises `Error`, a name defined
    nowhere, so Python fails there with `NameError`.
  */
  datatype BuildError = EmptyTokens | MissingRightOperand

  /** `BuildExpression(tokens)`: the tree the leading tokens describe, and the tokens after it. */
  function BuildExpression(tokens: seq<string>): (r: Result<(Production, seq<string>), BuildError>)
    ensures tokens == [] ==> r == Err(EmptyTokens)
    ensures r.Ok? ==> |r.value.1| < |tokens|
    decreases |tokens|
  {
    if tokens == [] then Err(EmptyTokens)
    else
      var t := tokens[0];
      if t == "+" then
        match BuildExpression(tokens[1..])
        case Err(e) => Err(e)
        case Ok((leftSide, leftover)) =>
          if |leftover| == 0 then Err(MissingRightOperand)
          else
            match BuildExpression(leftover)
            case Err(e) => Err(e)
            case Ok((rightSide, rest)) => Ok((Concatenation(leftSide, rightSide), rest))
      else if t == "|" then
        match BuildExpression(tokens[1..])
        case Err(e) => Err(e)
        case Ok((leftSide, leftover)) =>
          if |leftover| == 0 then Err(MissingRightOperand)
          else
            match BuildExpression(leftover)
            case Err(e) => Err(e)
            case Ok((rightSide, rest)) => Ok((Alternative(leftSide, rightSide), rest))
      else if t == "*" then
        match BuildExpression(tokens[1..])
        case Err(e) => Err(e)
        case Ok((e, leftover)) => Ok((Repetition(e), leftover))
      else if t == "" then
        Ok((NilExpression, tokens[1..]))
      else
        Ok((Sigma(t), tokens[1..]))
  }

  /** The tokens of a tree in prefix order, the nil expression as the empty token. */
  function Tokens(p: Production): (ts: seq<string>)
    ensures |ts| >= 1
  {
    match p
    case Sigma(sigma) => [sigma]
    case Repetition(e) => ["*"] + Tokens(e)
    case Alternative(l, r) => ["|"] + Tokens(l) + Tokens(r)
    case Concatenation(l, r) => ["+"] + Tokens(l) + Tokens(r)
    case NilExpression => [""]
  }

  /** A symbol reads back as itself: not empty, not an operator, no space in it. */
  predicate ReadableSymbol(sigma: string)
  {
    sigma != "" && sigma != "+" && sigma != "|" && sigma != "*" && ' ' !in sigma
  }

  /** Every symbol of the tree is readable. */
  predicate ReadableSymbols(p: Production)
  {
    match p
    case Sigma(sigma) => ReadableSymbol(sigma)
    case Repetition(e) => ReadableSymbols(e)
    case Alternative(l, r) => ReadableSymbols(l) && ReadableSymbols(r)
    case Concatenation(l, r) => ReadableSymbols(l) && ReadableSymbols(r)
    case NilExpression => true
  }

  /** One step of the builder on a binary operator, given what its two recursive calls return. */
  lemma BuildBinaryStep(ts: seq<string>, left: Production, after: seq<string>, right: Production, rest: seq<string>)
    requires |ts| > 0 && (ts[0] == "+" || ts[0] == "|")
    requires BuildExpression(ts[1..]) == Ok((left, after)) && after != []
    requires BuildExpression(after) == Ok((right, rest))
    ensures BuildExpression(ts) ==
      Ok((if ts[0] == "+" then Concatenation(left, right) else Alternative(left, right), rest))
  {
  }

  /** One step of the builder on the repetition operator. */
  lemma BuildRepetitionStep(ts: seq<string>, e: Production, rest: seq<string>)
    requires |ts| > 0 && ts[0] == "*"
    requires BuildExpression(ts[1..]) == Ok((e, rest))
    ensures BuildExpression(ts) == Ok((Repetition(e), rest))
  {
  }

  /** The builder reads a tree back from its own tokens, whatever follows them. */
  lemma {:induction false} BuildTokens(p: Production, rest: seq<string>)
    requires ReadableSymbols(p)
    ensures BuildExpression(Tokens(p) + rest) == Ok((p, rest))
    decreases p, 1
  {
    match p
    case Sigma(_) =>
      assert (Tokens(p) + rest)[1..] == rest;
    case NilExpression =>
      assert (Tokens(p) + rest)[1..] == rest;
    case Repetition(e) =>
      BuildTokens(e, rest);
      assert (Tokens(p) + rest)[1..] == Tokens(e) + rest;
      BuildRepetitionStep(Tokens(p) + rest, e, rest);
    case Alternative(l, r) =>
      BuildTokensBinary(p, rest);
    case Concatenation(l, r) =>
      BuildTokensBinary(p, rest);
  }

  lemma {:induction false} BuildTokensBinary(p: Production, rest: seq<string>)
    requires p.Alternative? || p.Concatenation?
    requires ReadableSymbols(p)
    ensures BuildExpression(Tokens(p) + rest) == Ok((p, rest))
    decreases p, 0
  {
    var op := if p.Concatenation? then "+" else "|";
    var left, right := p.left, p.right;
    var after := Tokens(right) + rest;
    var ts := [op] + (Tokens(left) + after);
    assert ts == Tokens(p) + rest;
    BuildTokens(left, after);
    BuildTokens(right, rest);
    assert ts[1..] == Tokens(left) + after;
    BuildBinaryStep(ts, left, after, right, rest);
  }

  /** Whatever the builder returns, it read exactly the tree's tokens before the leftover. */
  lemma {:induction false} BuildExpressionReadsTokens(tokens: seq<string>)
    requires BuildExpression(tokens).Ok?
    ensures tokens == Tokens(BuildExpression(tokens).value.0) + BuildExpression(tokens).value.1
    decreases |tokens|
  {
    var t := tokens[0];
    if t == "+" || t == "|" {
      var (leftSide, leftover) := BuildExpression(tokens[1..]).value;
      var (rightSide, rest) := BuildExpression(leftover).value;
      BuildExpressionReadsTokens(tokens[1..]);
      BuildExpressionReadsTokens(leftover);
      BuildBinaryStep(tokens, leftSide, leftover, rightSide, rest);
      assert tokens == [t] + tokens[1..];
      ConcatAssociative([t], Tokens(leftSide), Tokens(rightSide) + rest);
      ConcatAssociative([t] + Tokens(leftSide), Tokens(rightSide), rest);
    } else if t == "*" {
      BuildExpressionReadsTokens(tokens[1..]);
      assert tokens == [t] + tokens[1..];
    } else {
      assert tokens == [t] + tokens[1..];
    }
  }

  /** The leftover is a proper suffix of the input: every branch takes at least one token. */
  lemma LeftoverIsProperSuffix(tokens: seq<string>)
    requires BuildExpression(tokens).Ok?
    ensures var rest := BuildExpression(tokens).value.1;
            |rest| < |tokens| && rest == tokens[|tokens| - |rest|..]
  {
    BuildExpressionReadsTokens(tokens);
  }

  /** Tokens joined with single spaces. */
  function Join(ts: seq<string>): (s: string)
    requires |ts| >= 1
  {
    if |ts| == 1 then ts[0] else ts[0] + " " + Join(ts[1..])
  }

  lemma {:induction false} JoinAppend(a: seq<string>, b: seq<string>)
    requires |a| >= 1 && |b| >= 1
    ensures Join(a + b) == Join(a) + " " + Join(b)
    decreases |a|
  {
    if |a| > 1 {
      JoinAppend(a[1..], b);
      assert (a + b)[1..] == a[1..] + b;
    } else {
      assert (a + b)[1..] == b;
    }
  }

  /** Joining an operator and two operands' tokens. */
  lemma JoinOperator(op: string, a: seq<string>, b: seq<string>)
    requires |a| >= 1 && |b| >= 1
    ensures Join([op] + a + b) == op + " " + Join(a) + " " + Join(b)
  {
    var x, left, right := op + " ", Join(a), Join(b);
    assert [op] + a + b == [op] + (a + b);
    JoinAppend([op], a + b);
    JoinAppend(a, b);
    ConcatAssociative(x, left + " ", right);
    ConcatAssociative(x, left, " ");
  }

  /** Printing a tree writes its tokens joined with single spaces. */
  lemma {:induction false} ToStringJoinsTokens(p: Production)
    ensures ToString(p) == Join(Tokens(p))
  {
    match p
    case Sigma(_) =>
    case NilExpression =>
    case Repetition(e) =>
      ToStringJoinsTokens(e);
      JoinAppend(["*"], Tokens(e));
      assert "*" + " " == "* ";
    case Alternative(l, r) =>
      ToStringJoinsTokens(l);
      ToStringJoinsTokens(r);
      JoinOperator("|", Tokens(l), Tokens(r));
      assert "|" + " " == "| ";
    case Concatenation(l, r) =>
      ToStringJoinsTokens(l);
      ToStringJoinsTokens(r);
      JoinOperator("+", Tokens(l), Tokens(r));
      assert "+" + " " == "+ ";
  }

  /** Python's `s.split(' ')`: the pieces between single spaces, empty pieces included. */
  function SplitSpaces(s: string): (ts: seq<string>)
    ensures |ts| >= 1
  {
    if s == [] then [[]]
    else if s[0] == ' ' then [[]] + SplitSpaces(s[1..])
    else
      var ts := SplitSpaces(s[1..]);
      [[s[0]] + ts[0]] + ts[1..]
  }

  lemma {:induction false} SplitWord(w: string, s: string)
    requires ' ' !in w
    ensures SplitSpaces(w + " " + s) == [w] + SplitSpaces(s)
    ensures SplitSpaces(w) == [w]
  {
    if w != [] {
      SplitWord(w[1..], s);
      assert (w + " " + s)[1..] == w[1..] + " " + s;
      assert w == [w[0]] + w[1..];
    } else {
      assert w + " " + s == [' '] + s;
    }
  }

  /** Splitting undoes joining when no token holds a space. */
  lemma {:induction false} SplitJoin(ts: seq<string>)
    requires |ts| >= 1
    requires forall k :: 0 <= k < |ts| ==> ' ' !in ts[k]
    ensures SplitSpaces(Join(ts)) == ts
  {
    SplitWord(ts[0], []);
    if |ts| > 1 {
      SplitJoin(ts[1..]);
      SplitWord(ts[0], Join(ts[1..]));
    }
  }

  lemma {:induction false} TokensHaveNoSpaces(p: Production)
    requires ReadableSymbols(p)
    ensures forall k :: 0 <= k < |Tokens(p)| ==> ' ' !in Tokens(p)[k]
  {
    match p
    case Sigma(_) =>
    case NilExpression =>
    case Repetition(e) =>
      TokensHaveNoSpaces(e);
    case Alternative(l, r) =>
      TokensHaveNoSpaces(l);
      TokensHaveNoSpaces(r);
    case Concatenation(l, r) =>
      TokensHaveNoSpaces(l);
      TokensHaveNoSpaces(r);
  }

  /** Printing a tree, splitting on spaces and building gives the tree back with nothing left over. */
  lemma PrintParseRoundTrip(p: Production)
    requires ReadableSymbols(p)
    ensures BuildExpression(SplitSpaces(ToString(p))) == Ok((p, []))
  {
    ToStringJoinsTokens(p);
    TokensHaveNoSpaces(p);
    SplitJoin(Tokens(p));
    BuildTokens(p, []);
    assert Tokens(p) + [] == Tokens(p);
  }

  /** A binary operator followed by one operand only fails with the missing-operand error. */
  lemma MissingOperandFails(op: string, p: Production)
    requires op == "+" || op == "|"
    requires ReadableSymbols(p)
    ensures BuildExpression([op] + Tokens(p)) == Err(MissingRightOperand)
  {
    BuildTokens(p, []);
    assert ([op] + Tokens(p))[1..] == Tokens(p) + [];
  }
}
