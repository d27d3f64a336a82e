/**
  The regular-expression tree: whole-string matching, prefix consumption
  and the prefix-notation printer, as regex.py writes them.

  `InLanguage` is the textbook meaning of each node (any split point for a
  concatenation, any number of pieces for a repetition). It is not part of
  the source: it is the reference the source's `matches` and `consume` are
  compared against.
*/
module Regex {

  datatype Production =
    | Sigma(sigma: string)
    | Repetition(expr: Production)
    | Alternative(left: Production, right: Production)
    | Concatenation(left: Production, right: Production)
    | NilExpression

  /** Python's `s[0:i]`, which stops at the end of `s`. */
  function Take(s: string, i: nat): (r: string)
    ensures |r| == if i <= |s| then i else |s|
  {
    if i <= |s| then s[..i] else s
  }

  /** Python's `s[i:]`, which is empty past the end of `s`. */
  function Drop(s: string, i: nat): (r: string)
    ensures Take(s, i) + r == s
  {
    if i <= |s| then s[i..] else []
  }

  /** `matches` of each node, with its single split point for a concatenation. */
  function Matches(p: Production, s: string): bool
    decreases p, |s|
  {
    match p
    case Sigma(sigma) => sigma == s
    case Repetition(e) => s == [] || (Matches(e, Take(s, 1)) && Matches(p, Drop(s, 1)))
    case Alternative(l, r) => Matches(l, s) || Matches(r, s)
    case Concatenation(l, r) => Matches(l, Take(s, 1)) && Matches(r, Drop(s, 1))
    case NilExpression => s == []
  }

  /** The textbook language of a node. */
  ghost predicate InLanguage(p: Production, s: string)
    decreases p, |s|
  {
    match p
    case Sigma(sigma) => s == sigma
    case Repetition(e) =>
      s == [] || exists i :: 1 <= i <= |s| && InLanguage(e, s[..i]) && InLanguage(p, s[i..])
    case Alternative(l, r) => InLanguage(l, s) || InLanguage(r, s)
    case Concatenation(l, r) => exists i :: 0 <= i <= |s| && InLanguage(l, s[..i]) && InLanguage(r, s[i..])
    case NilExpression => s == []
  }

  /** Whatever `matches` accepts is in the textbook language. */
  lemma {:induction false} MatchesSound(p: Production, s: string)
    requires Matches(p, s)
    ensures InLanguage(p, s)
    decreases p, |s|
  {
    match p
    case Sigma(_) =>
    case NilExpression =>
    case Alternative(l, r) =>
      if Matches(l, s) { MatchesSound(l, s); } else { MatchesSound(r, s); }
    case Concatenation(l, r) =>
      MatchesSound(l, Take(s, 1));
      MatchesSound(r, Drop(s, 1));
      var i := if s == [] then 0 else 1;
      assert s[..i] == Take(s, 1) && s[i..] == Drop(s, 1);
    case Repetition(e) =>
      if s != [] {
        MatchesSound(e, Take(s, 1));
        MatchesSound(p, Drop(s, 1));
        assert s[..1] == Take(s, 1) && s[1..] == Drop(s, 1);
      }
  }

  /**
    `matches` is incomplete: it tries one split point only, after the
    first character, so `+ * a b` misses "aab" although "aab" is in its
    language.
  */
  lemma ConcatenationSingleSplit()
    ensures !Matches(Concatenation(Repetition(Sigma("a")), Sigma("b")), "aab")
    ensures InLanguage(Concatenation(Repetition(Sigma("a")), Sigma("b")), "aab")
  {
    var a := Sigma("a");
    var star := Repetition(a);
    assert Take("aab", 1) == "a" && Drop("aab", 1) == "ab";
    assert InLanguage(star, "") by { }
    var s1: string := "a";
    assert s1[..1] == "a" && s1[1..] == "";
    assert InLanguage(star, "a");
    var s2: string := "aa";
    assert s2[..1] == "a" && s2[1..] == "a";
    assert InLanguage(star, "aa");
    var s3: string := "aab";
    assert s3[..2] == "aa" && s3[2..] == "b";
  }

  /** A repetition matches exactly the strings whose every character its body matches alone. */
  lemma {:induction false} RepetitionMatchesEachCharacter(e: Production, s: string)
    ensures Matches(Repetition(e), s) <==> forall i :: 0 <= i < |s| ==> Matches(e, [s[i]])
  {
    if s != [] {
      RepetitionMatchesEachCharacter(e, s[1..]);
      assert Take(s, 1) == [s[0]] && Drop(s, 1) == s[1..];
      assert forall i :: 1 <= i < |s| ==> s[i] == s[1..][i - 1];
    }
  }

  /**
    The end index the loop of regex.py:13-15 stops at: it advances while
    the prefix one longer matches and the index has not passed the end.
  */
  function GreedyEnd(p: Production, s: string, i: nat): nat
    requires i <= |s| + 1
    decreases |s| + 1 - i
  {
    if Matches(p, Take(s, i + 1)) && i <= |s| then GreedyEnd(p, s, i + 1) else i
  }

  /** The loop of `Production.consume` stops after the longest run of matching prefixes. */
  lemma {:induction false} GreedyEndFacts(p: Production, s: string, i: nat)
    requires i <= |s| + 1
    requires forall k :: 1 <= k <= i ==> Matches(p, Take(s, k))
    ensures i <= GreedyEnd(p, s, i) <= |s| + 1
    ensures forall k :: 1 <= k <= GreedyEnd(p, s, i) ==> Matches(p, Take(s, k))
    ensures GreedyEnd(p, s, i) <= |s| ==> !Matches(p, Take(s, GreedyEnd(p, s, i) + 1))
    decreases |s| + 1 - i
  {
    if Matches(p, Take(s, i + 1)) && i <= |s| {
      GreedyEndFacts(p, s, i + 1);
      assert GreedyEnd(p, s, i) == GreedyEnd(p, s, i + 1);
    } else {
      assert GreedyEnd(p, s, i) == i;
    }
  }

  /** The default `Production.consume` (regex.py:12-20), used by repetition, alternative and nil. */
  function DefaultConsumed(p: Production, s: string): (string, string)
  {
    var i := GreedyEnd(p, s, 0);
    if i == 0 then ([], s) else (Take(s, i), Drop(s, i))
  }

  /** The nodes that inherit `Production.consume`. */
  predicate InheritsConsume(p: Production)
  {
    p.Repetition? || p.Alternative? || p.NilExpression?
  }

  /** `consume` of each node: the matched prefix and the leftover. */
  function Consumed(p: Production, s: string): (r: (string, string))
    ensures r.0 + r.1 == s
    decreases p
  {
    match p
    case Sigma(sigma) =>
      if |s| >= 1 && [s[0]] == sigma then (s[..1], s[1..]) else ([], s)
    case Concatenation(l, r) =>
      var (leftMatch, leftover) := Consumed(l, s);
      var (rightMatch, rest) := Consumed(r, leftover);
      if leftMatch == [] || rightMatch == [] then ([], s) else (leftMatch + rightMatch, rest)
    case _ =>
      assert Take(s, GreedyEnd(p, s, 0)) + Drop(s, GreedyEnd(p, s, 0)) == s;
      DefaultConsumed(p, s)
  }

  /**
    The inherited `consume` returns a prefix and the rest of the input;
    every non-empty prefix of what it returns matches, the prefix one
    character longer does not, and it returns ('', s) as soon as the
    one-character prefix fails.
  */
  lemma DefaultConsumedFacts(p: Production, s: string)
    ensures var (prefix, rest) := DefaultConsumed(p, s);
            && prefix + rest == s && |prefix| <= |s|
            && (forall k :: 1 <= k <= |prefix| ==> Matches(p, prefix[..k]))
            && (|prefix| < |s| ==> !Matches(p, s[..|prefix| + 1]))
            && (!Matches(p, Take(s, 1)) ==> prefix == [] && rest == s)
  {
    GreedyEndFacts(p, s, 0);
    var i := GreedyEnd(p, s, 0);
    var prefix := DefaultConsumed(p, s).0;
    forall k | 1 <= k <= |prefix| ensures Matches(p, prefix[..k]) {
      assert prefix[..k] == Take(s, k);
    }
    if |prefix| < |s| {
      if i == 0 {
        assert s[..1] == Take(s, 1);
      } else {
        assert s[..|prefix| + 1] == Take(s, i + 1);
      }
    }
  }

  /** The same for the nodes that inherit it. */
  lemma DefaultConsumeIsGreedy(p: Production, s: string)
    requires InheritsConsume(p)
    ensures Consumed(p, s).0 + Consumed(p, s).1 == s && |Consumed(p, s).0| <= |s|
    ensures forall k :: 1 <= k <= |Consumed(p, s).0| ==> Matches(p, Consumed(p, s).0[..k])
    ensures |Consumed(p, s).0| < |s| ==> !Matches(p, s[..|Consumed(p, s).0| + 1])
    ensures !Matches(p, Take(s, 1)) ==> Consumed(p, s) == ([], s)
  {
    assert Consumed(p, s) == DefaultConsumed(p, s);
    DefaultConsumedFacts(p, s);
  }

  /**
    The nil expression never consumes anything: on "" its loop runs once
    and stops at index 1, and `""[0:1]` is empty again.
  */
  lemma NilConsumesNothing(s: string)
    ensures Consumed(NilExpression, s) == ([], s)
  {
    if s == [] {
      assert GreedyEnd(NilExpression, s, 1) == 1;
    } else {
      assert Take(s, 1) != [];
    }
  }

  /** A non-empty prefix that `consume` returns is in the textbook language. */
  lemma {:induction false} ConsumeSound(p: Production, s: string)
    requires Consumed(p, s).0 != []
    ensures InLanguage(p, Consumed(p, s).0)
    decreases p
  {
    match p
    case Sigma(_) =>
    case Concatenation(l, r) =>
      var (leftMatch, leftover) := Consumed(l, s);
      var (rightMatch, rest) := Consumed(r, leftover);
      ConsumeSound(l, s);
      ConsumeSound(r, leftover);
      var m := leftMatch + rightMatch;
      assert m[..|leftMatch|] == leftMatch && m[|leftMatch|..] == rightMatch;
    case NilExpression =>
    case Repetition(_) | Alternative(_, _) =>
      DefaultConsumeIsGreedy(p, s);
      var prefix := Consumed(p, s).0;
      assert prefix[..|prefix|] == prefix;
      MatchesSound(p, prefix);
  }

  /** A concatenation consumes nothing unless both sides do, and then glues the two prefixes. */
  lemma ConcatenationConsume(l: Production, r: Production, s: string)
    ensures var (leftMatch, leftover) := Consumed(l, s);
            var (rightMatch, rest) := Consumed(r, leftover);
            && (leftMatch == [] || rightMatch == [] ==> Consumed(Concatenation(l, r), s) == ([], s))
            && (leftMatch != [] && rightMatch != [] ==>
                  Consumed(Concatenation(l, r), s) == (leftMatch + rightMatch, rest) &&
                  |Consumed(Concatenation(l, r), s).0| >= 2)
  {
  }

  /** The inherited `consume`: the counter loop of regex.py:13-15. */
  method DefaultConsume(p: Production, s: string) returns (prefix: string, rest: string)
    ensures (prefix, rest) == DefaultConsumed(p, s)
    ensures prefix + rest == s
    ensures forall k :: 1 <= k <= |prefix| ==> Matches(p, prefix[..k])
  {
    var i := 0;
    while Matches(p, Take(s, i + 1)) && i <= |s|
      invariant 0 <= i <= |s| + 1
      invariant GreedyEnd(p, s, i) == GreedyEnd(p, s, 0)
      invariant forall k :: 1 <= k <= i ==> Matches(p, Take(s, k))
      decreases |s| + 1 - i
    {
      assert GreedyEnd(p, s, i) == GreedyEnd(p, s, i + 1);
      i := i + 1;
    }
    assert GreedyEnd(p, s, 0) == i;
    if i == 0 {
      prefix, rest := [], s;
    } else {
      prefix, rest := Take(s, i), Drop(s, i);
    }
    DefaultConsumedFacts(p, s);
  }

  /** `consume`, dispatched on the node: Sigma and Concatenation override it, the rest inherit it. */
  method Consume(p: Production, s: string) returns (prefix: string, rest: string)
    ensures (prefix, rest) == Consumed(p, s)
    decreases p
  {
    match p {
      case Sigma(sigma) =>
        if |s| >= 1 && [s[0]] == sigma {
          prefix, rest := s[..1], s[1..];
        } else {
          prefix, rest := [], s;
        }
      case Concatenation(l, r) =>
        var leftMatch, leftover := Consume(l, s);
        var rightMatch, rest' := Consume(r, leftover);
        if leftMatch == [] || rightMatch == [] {
          prefix, rest := [], s;
        } else {
          prefix, rest := leftMatch + rightMatch, rest';
        }
      case _ =>
        prefix, rest := DefaultConsume(p, s);
    }
  }

  /** `__str__`: prefix notation with one space after each operator and between operands. */
  function ToString(p: Production): string
  {
    match p
    case Sigma(sigma) => sigma
    case Repetition(e) => "* " + ToString(e)
    case Alternative(l, r) => "| " + ToString(l) + " " + ToString(r)
    case Concatenation(l, r) => "+ " + ToString(l) + " " + ToString(r)
    case NilExpression => ""
  }
}
