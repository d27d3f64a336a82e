# Automata toolkit, modelled in Dafny

This project models the algorithmic core of a small Python 2 automata-theory
toolkit. The core is:

- a regular-expression tree with whole-string matching, prefix consumption and
  a prefix-notation printer (regex.py);
- the prefix-notation builder that reads such a tree back from tokens
  (description_reader.py);
- Thompson's construction from a tree to an NFA (thompsons_construction.py);
- the epsilon-closure, `move` and state-set naming helpers of the subset
  construction (subset_construction.py);
- Brzozowski's double-reversal minimisation (brzozowski.py);
- a partition-refinement minimiser followed by a collapse of each class onto
  one representative (hopcrofts_algorithm.py);
- the set-up of the Arden equation system `X = A X | B` from a DFA
  (dfa_to_re.py);
- the acceptance walk of a string through a DFA (dfa_read.py).

Each source file is one Dafny module of the same name. Three further modules
hold what the files share:

- `Wrappers`: `Option` and `Result`.
- `Names`: state names and the Python 2 ordering the code sorts them by.
- `Automata`: the automaton data model.

The repository's own automaton class file is a broken draft. The data model
is therefore inferred from how the algorithms use automata:

- `Automaton` is the value the constructor
  `Automata(states, start, accepts, transitions, alphabet)` builds. Its nodes
  are derived from the `[from, [symbols], to]` triples (`Automata.Nodes`).
- `Automata.Nfa` is the mutable object that Thompson's construction grows
  through `addNodes`, `addTransition` and attribute assignment.
- Node transition tables map labels to lists of target *names*.

Conventions of the model:

- Python exceptions the code can raise on unexpected input are results:
  `Raised` is `IndexError`, `KeyError` or `TypeError`. The parser's own
  errors are `DescriptionReader.BuildError`.
- Iteration over a Python `set` or over `dict.keys()` visits elements in an
  order the language leaves open. The methods model it as an arbitrary choice
  (`:|`), and the contracts hold for every order.
- Loops that mutate lists in place are methods over `seq` variables that the
  loop reassigns. Each method is proved against a specification function or
  predicate of its inputs.
- Each construction step of Thompson's algorithm mutates the left automaton.
  It is a method on an `Nfa` object whose `Value()` is tied to a value-level
  step function (`CharacterStep`, `ConcatenationStep`, `AlternativeStep`,
  `RepetitionStep`).
- The whole construction is compared with a reference function
  `ThompsonsConstruction.Thompson`, which applies those step functions by
  recursion over the tree. `ThompsonFacts` states its nodes, ends and
  alphabet, and its transitions as a set `ThompsonEdges` written from the
  tree alone.

Quirks of the code are modelled as written. Lemmas exhibit what they do:

- `Concatenation.matches` tries one split point only. See
  `Regex.ConcatenationSingleSplit`.
- `constructConcatenation` overwrites `accepts` before its epsilon loop, so
  the loop links right's own accept states to right's start. See
  `ThompsonsConstruction.ConcatenationDisconnected`.
- `constructRepetition` assigns `accept`, not `accepts`. `RepetitionStep`
  keeps the old `accepts` and records the fresh state under `accept`.
- Hopcroft's split test compares every member with `X[0]` only. See
  `HopcroftsAlgorithm.Joins` and `HopcroftsAlgorithm.CompareInClasses`.
- The comprehension `stateNumMap` keeps the last position of a repeated state
  name. See `DfaToRe.NumberIsLastPosition`.
- A cell of `A` holds the last symbol written into it. See
  `DfaToRe.CellMeaning`.

The Arden system is built as the code builds it. The raw symbol of each
transition is written into its cell, so where several symbols join two
states only the last one stays, unlike the textbook algebraic method, which
would combine them into an alternative. Unset cells hold `None`, and
accepting entries of `B` hold the string `EPSILON`.

The acceptance walk of dfa_read.py reads `next_state[0].name` from a
target list. Node tables hold target names here, so the model follows the
first target name.

## Model

| member | source | states |
|---|---|---|
| Regex.Take | regex.py:14 | Python's `s[0:i]` has length `min(i, \|s\|)` |
| Regex.Drop | regex.py:20 | Python's `s[i:]` is what follows `s[0:i]`: the two concatenate to `s` |
| Regex.Matches | regex.py:30-91 | each class's `matches`; specified by `MatchesSound`, `ConcatenationSingleSplit` and `RepetitionMatchesEachCharacter` below |
| Regex.MatchesSound | regex.py:30-91 | whatever `matches` accepts (Sigma equal to its symbol, repetition, alternative as left-or-right, concatenation, nil only on "") is in the textbook language of the node |
| Regex.ConcatenationSingleSplit | regex.py:72-73 | `matches` on a concatenation, as written, splits after the first character only: `+ * a b` rejects "aab" although "aab" is in its language |
| Regex.RepetitionMatchesEachCharacter | regex.py:46-50 | a repetition matches `s` exactly when its body matches every single character of `s`, and always matches "" |
| Regex.GreedyEndFacts | regex.py:13-15 | the counter loop stops after the longest run of matching prefixes, at most one past the end of the string |
| Regex.DefaultConsumedFacts | regex.py:12-20 | the inherited `consume` returns a prefix and its remainder that concatenate to the input, every non-empty prefix of the match matches, the one-longer prefix does not, and ('', s) when the one-character prefix fails |
| Regex.DefaultConsumeIsGreedy | regex.py:12-20 | the same facts for repetition, alternative and nil, the nodes that inherit `consume` |
| Regex.NilConsumesNothing | regex.py:86-91 | the nil expression consumes nothing from any string |
| Regex.Consumed | regex.py:33-37 | every node's `consume`, including Sigma's one-character case, returns a prefix and the remainder that concatenate to the input |
| Regex.ConsumeSound | regex.py:12-84 | a non-empty prefix `consume` returns is in the node's textbook language |
| Regex.ConcatenationConsume | regex.py:75-84 | a concatenation returns ('', s) unless both sides consume something, and then the two matches glued, with the right side's leftover |
| Regex.DefaultConsume | regex.py:12-20 | the `while` loop computes the inherited `consume`; its prefix and remainder rebuild the input and every non-empty prefix of the match matches |
| Regex.Consume | regex.py:75-84 | `consume` dispatched on the node: Sigma and Concatenation override it, the rest inherit the loop; the result is `Consumed` |
| DescriptionReader.BuildExpression | description_reader.py:118-163 | an empty token list is an error (line 124), and a successful build always leaves fewer tokens than it was given |
| DescriptionReader.Tokens | regex.py:27-70 | the printer's tokens of a tree, at least one per tree |
| DescriptionReader.BuildBinaryStep | description_reader.py:127-152 | `+` and `\|` build the concatenation or alternative of the left operand read from `tokens[1:]` and the right operand read from its leftover |
| DescriptionReader.BuildRepetitionStep | description_reader.py:154-156 | `*` builds the repetition of the next sub-expression and returns its leftover |
| DescriptionReader.BuildTokens | description_reader.py:118-163 | the builder reads a tree with readable symbols back from its own tokens, whatever tokens follow, and returns exactly those following tokens |
| DescriptionReader.BuildExpressionReadsTokens | description_reader.py:118-163 | whatever the builder returns, the input is the returned tree's tokens followed by the leftover |
| DescriptionReader.LeftoverIsProperSuffix | description_reader.py:132-163 | the leftover is a proper suffix of the input |
| Regex.ToString | regex.py:27-88 | each class's `__str__`; specified by `DescriptionReader.ToStringJoinsTokens` and `DescriptionReader.PrintParseRoundTrip` below |
| DescriptionReader.ToStringJoinsTokens | regex.py:27-70 | `__str__` writes a tree's tokens joined by single spaces |
| DescriptionReader.PrintParseRoundTrip | description_reader.py:118-163 | printing a tree with space-free symbols, splitting on spaces and building gives the tree back with no tokens left over |
| DescriptionReader.MissingOperandFails | description_reader.py:135-149 | a binary operator followed by a single operand fails with the missing-operand error |
| ThompsonsConstruction.IssuedInjective | thompsons_construction.py:22-26 | different counter values give different names `"s" + str(n)` |
| ThompsonsConstruction.IssuedRangesDisjoint | thompsons_construction.py:22-26 | names issued in consecutive counter ranges are distinct |
| ThompsonsConstruction.IssuedCount | thompsons_construction.py:22-26 | a counter range of width `w` issues `w` distinct names |
| ThompsonsConstruction.NameSupply.NextName | thompsons_construction.py:22-26 | the counter goes up by one and the name is `"s"` plus its decimal value, never a name issued before |
| ThompsonsConstruction.CharacterStepFacts | thompsons_construction.py:29-46 | two distinct fresh states, the first the start and the second the only accept state, exactly one edge start --c--> accept, `c` in the alphabet, and closed nodes |
| ThompsonsConstruction.ConstructCharacter | thompsons_construction.py:29-46 | a fresh automaton equal to the character step, after two names are drawn |
| ThompsonsConstruction.ConcatenationEdges | thompsons_construction.py:56-63 | concatenation keeps every edge of both sides and adds one epsilon edge per accept state of right, to right's start |
| ThompsonsConstruction.ConcatenationDisconnected | thompsons_construction.py:58-63 | because `accepts` is overwritten before the loop, no edge leads out of left's states and the accept states lie outside them |
| ThompsonsConstruction.ConcatenationStepFacts | thompsons_construction.py:56-63 | nodes are left's and right's, edges are both sides' plus the epsilon links from right's accepts to right's start, start stays left's, accepts become right's, alphabets unite, closed nodes stay closed |
| ThompsonsConstruction.ConstructConcatenation | thompsons_construction.py:49-65 | the left automaton becomes the concatenation step of the two old values |
| ThompsonsConstruction.AlternativeNodesEdges | thompsons_construction.py:76-88 | the alternative keeps every edge and adds exactly its four epsilon edges |
| ThompsonsConstruction.AlternativeStepFacts | thompsons_construction.py:75-92 | both sides' nodes and edges plus the fresh pair, epsilon edges from the new start to both old starts and from both old `accepts[0]` to the new accept, the new pair as start and single accept, alphabets united |
| ThompsonsConstruction.ConstructAlternative | thompsons_construction.py:68-94 | the left automaton becomes the alternative step of the two old values, after two names are drawn |
| ThompsonsConstruction.AddAlternativeLinks | thompsons_construction.py:85-88 | the four `addTransition` calls add these four epsilon edges in order and change nothing else |
| ThompsonsConstruction.RepetitionNodesEdges | thompsons_construction.py:104-113 | the star keeps every edge and adds new start to old start, new start to new accept, old accept to new accept, old accept to old start |
| ThompsonsConstruction.RepetitionStepFacts | thompsons_construction.py:104-117 | the fresh pair and four epsilon edges are added, the start is the fresh start, `accepts` is left as it was and the fresh accept is stored under `accept` only |
| ThompsonsConstruction.ConstructRepetition | thompsons_construction.py:97-119 | the automaton becomes the repetition step of its old value, after two names are drawn |
| ThompsonsConstruction.AddStarLinks | thompsons_construction.py:108-113 | the four `addTransition` calls of the star add these edges in order and change nothing else |
| ThompsonsConstruction.ConvertRegexToNfa | thompsons_construction.py:122-142 | `None` exactly for a nil expression at the root; `AttributeError` exactly when a nil expression sits deeper; otherwise a fresh automaton equal to the reference `Thompson` of the tree; on every outcome the counter has moved by `NamesDrawn`, the names Python draws before returning or raising |
| ThompsonsConstruction.NamesDrawnWhenBuilt | thompsons_construction.py:20-142 | for a tree without nil expressions the names drawn are exactly the `NamesUsed` names the automaton holds |
| ThompsonsConstruction.StarOfNilDrawsTwo | thompsons_construction.py:104-105 | a star over `None` draws two names before failing, and so does an alternative whose right operand is built before line 76 fails on `None` |
| ThompsonsConstruction.ThompsonFacts | thompsons_construction.py:29-142 | the reference automaton of a nil-free tree has one node per name drawn, the start, single accept and `accept` attribute the steps assign, the tree's symbols as alphabet, closed nodes, and exactly the transitions `ThompsonEdges` lists from the tree alone |
| ThompsonsConstruction.ThompsonAccepting | thompsons_construction.py:56-117 | the reference automaton of a nil-free tree has an accept state among its nodes, which every step reads as `accepts[0]` |
| ThompsonsConstruction.ConvertRepetition | thompsons_construction.py:130-132 | the repetition branch gives the reference `Thompson` of the tree, transitions included, unless a nil expression sits inside, where it fails with `AttributeError`; an operand that returned `None` still costs the two names line 104 draws |
| ThompsonsConstruction.ConvertAlternative | thompsons_construction.py:133-136 | the alternative branch gives the reference `Thompson` of the tree, transitions included, unless a nil expression sits inside, where it fails with `AttributeError` |
| ThompsonsConstruction.ConvertConcatenation | thompsons_construction.py:137-140 | the concatenation branch gives the reference `Thompson` of the tree, transitions included, unless a nil expression sits inside, where it fails with `AttributeError` |
| Automata.GetTransitionState | brzozowski.py:58-59 | the target list of a symbol, `None` exactly when the node has no entry for it |
| Automata.AddTransition | thompsons_construction.py:37 | appends the target to the symbol's list, creating the entry if missing, and leaves every other entry, the name and the accept flag alone |
| Automata.Nodes | subset_construction.py:28 | the constructor builds one node per listed state |
| Automata.StepTargets | dfa_to_re.py:41-43 | a constructor-built node has an entry for a symbol exactly when some triple from the state carries it, and the entry lists those triples' targets in order |
| Automata.EdgesAddEdges | thompsons_construction.py:85-88 | adding a list of transitions adds exactly its edges |
| Automata.Nfa.AddNodes | thompsons_construction.py:41 | `addNodes` installs each node under its name and changes nothing else |
| Automata.Nfa.AddNodeTransition | thompsons_construction.py:63 | `nodes[from].addTransition(to, symbol)` adds one transition and changes nothing else |
| SubsetConstruction.EpsilonClosure | subset_construction.py:6-32 | on success the result holds the state and lies among the nodes, the visited set grows by exactly the result, every state expanded in this call was unvisited, every epsilon target of the result has a node, the result lies inside every epsilon-closed set holding the state, and from an empty visited set it is the epsilon closure; `KeyError` only when a state forced into the closure has an epsilon target without a node; from an empty visited set, `KeyError` exactly when some state reached along epsilon paths has such a target |
| SubsetConstruction.ForcedDangles | subset_construction.py:26-28 | a target without a node, of a state that every epsilon-closed set holding the start holds, is reached along an epsilon path from the start |
| SubsetConstruction.EpsilonClosureUnique | subset_construction.py:6-32 | the epsilon closure of a state is unique |
| SubsetConstruction.EpsilonClosureIsReachable | subset_construction.py:6-32 | a state is in the closure exactly when an epsilon path leads to it, whether or not every target has a node |
| SubsetConstruction.PathStaysInClosed | subset_construction.py:26-30 | an epsilon path starting in an epsilon-closed set stays in it |
| SubsetConstruction.Move | subset_construction.py:35-51 | `KeyError` exactly when some given state lists a target without a node under the symbol; otherwise the loop computes the union over the given states of their targets on the symbol |
| SubsetConstruction.MovedMember | subset_construction.py:46-49 | a state is reached exactly when some given state lists it under the symbol |
| SubsetConstruction.MovedEmpty | subset_construction.py:44-51 | moving no states reaches nothing |
| SubsetConstruction.MovedMonotone | subset_construction.py:46-49 | moving more states reaches at least as many |
| SubsetConstruction.MovedUnion | subset_construction.py:46-49 | moving a union is the union of the moves |
| SubsetConstruction.WithoutSpaces | subset_construction.py:86 | `replace(' ', '')` leaves no space |
| SubsetConstruction.StateSetName | subset_construction.py:80-88 | `stateSetName`; specified by `StateSetNameJoins` and `StateSetNameOrderIndependent` below |
| SubsetConstruction.StateSetNameJoins | subset_construction.py:80-88 | the name is the sorted renderings, spaces removed, joined by commas, with no space in it |
| SubsetConstruction.StateSetNameOrderIndependent | subset_construction.py:81-88 | two listings of the same set of states get the same name |
| Names.Sort | brzozowski.py:31 | Python 2's `sort` on state names returns a sorted permutation |
| Names.SortPermutationInvariant | brzozowski.py:31 | sorting two permutations of one list gives the same list |
| Names.Decimal | thompsons_construction.py:26 | `str(n)` is a non-empty string of digits |
| Brzozowski.Revers | brzozowski.py:4-17 | the result is the reverse automaton: the old starts become the accepts, the old accepts the starts, every triple's ends are swapped, states and alphabet are kept |
| Brzozowski.Swapped | brzozowski.py:12-16 | every triple with its ends swapped, in order, symbols untouched |
| Brzozowski.Reversed | brzozowski.py:4-17 | `revers`; specified by `ReversedTwice` below |
| Brzozowski.ReversedTwice | brzozowski.py:4-17 | reversing twice gives the automaton back |
| Brzozowski.ReversedEdges | brzozowski.py:12-16 | the reverse has an edge p to q on a symbol exactly when the automaton has q to p |
| Brzozowski.ReversedReady | brzozowski.py:4-17 | the reverse of a well-formed automaton meets what `determinis` needs |
| Brzozowski.SubsetList | brzozowski.py:21-33 | the list starts with the empty subset, holds sorted duplicate-free subsets of the states, none twice, and is closed under adding any state |
| Brzozowski.SubsetListComplete | brzozowski.py:21-33 | every sorted duplicate-free subset of the states is in the list |
| Brzozowski.AcceptingSubsets | brzozowski.py:43-49 | the accept list is the subsets holding an accepting state, in list order |
| Brzozowski.ToState | brzozowski.py:55-63 | the target list is the sorted list, each once, of every target of every member on the symbol |
| Brzozowski.SubsetTransitions | brzozowski.py:52-70 | one triple per subset and alphabet symbol, to its target list |
| Brzozowski.Renumber | brzozowski.py:75-87 | the `c`th subset becomes the number `c` in the start list, the accept list and both ends of every triple |
| Brzozowski.NewStates | brzozowski.py:88-89 | the new states are `0 .. k-1` |
| Brzozowski.Determinis | brzozowski.py:19-94 | the result is the renumbered powerset automaton of the complete subset list it built |
| Brzozowski.DeterminizedTargets | brzozowski.py:52-70 | every state has exactly one target per alphabet symbol: the number of the subset of all successors of its subset |
| Brzozowski.DeterminizedAccepts | brzozowski.py:43-49 | a state accepts exactly when its subset holds an accepting state |
| Brzozowski.DeterminizedStart | brzozowski.py:36-40 | the single start state's subset holds exactly the old start names |
| Brzozowski.DeterminizedWellFormed | brzozowski.py:19-94 | the powerset automaton is well formed |
| Brzozowski.DeterminizedComplete | brzozowski.py:52-70 | the powerset automaton is a complete DFA |
| Brzozowski.ReachesLeast | brzozowski.py:97-108 | the reached states lie in every edge-closed set holding the origin |
| Brzozowski.Search | brzozowski.py:97-108 | without an exception the found states are, each once, exactly those reached from the origin; a `KeyError` or `TypeError` names a reached state without a node or without an entry |
| Brzozowski.Reachable | brzozowski.py:96-120 | `IndexError` exactly on an empty start list; otherwise, without an exception, the reached states sorted, the start list unchanged, and the accepts and triples restricted to them, in order |
| Brzozowski.Kept | brzozowski.py:110-112 | the accept names kept are those the search reached |
| Brzozowski.KeptTriples | brzozowski.py:113-115 | the triples kept are exactly those with both ends reached |
| Brzozowski.TrimsWellFormed | brzozowski.py:96-120 | trimming a well-formed automaton gives a well-formed one |
| Brzozowski.TrimsComplete | brzozowski.py:96-120 | trimming a well-formed complete DFA with a listed start gives a complete DFA |
| Brzozowski.DeterminizeTrim | brzozowski.py:124-126 | one `determinis` and `reachable` round raises nothing and gives a well-formed complete DFA with one listed start state and the same alphabet |
| Brzozowski.ConvertNfaToMinDfa | brzozowski.py:123-130 | reverse, determinise, trim, twice: from a well-formed automaton, a well-formed complete DFA with one listed start state, every state reached from it |
| HopcroftsAlgorithm.InitialPartition | hopcrofts_algorithm.py:6 | the first partition splits the names into accepting and other names |
| HopcroftsAlgorithm.InitialWorklist | hopcrofts_algorithm.py:7-10 | the first worklist waits for non-empty classes of the first partition, none twice |
| HopcroftsAlgorithm.CompareInClasses | hopcrofts_algorithm.py:23-25 | a state is appended to `X` once when its successor lies in one class with `X[0]`'s; a state without a successor never joins; `TypeError` when `X[0]` has no successor but the state has one lying in a class of the partition |
| HopcroftsAlgorithm.Splitter | hopcrofts_algorithm.py:16-25 | `X` starts with the first member visited and holds each later member once, exactly when it joins `X[0]`; a `KeyError` names a member without a node |
| HopcroftsAlgorithm.SplitWeight | hopcrofts_algorithm.py:26-33 | splitting a class into two non-empty parts lowers the sum of squared sizes, so the main loop ends |
| HopcroftsAlgorithm.SplitPartitions | hopcrofts_algorithm.py:26-31 | replacing a class by `X1` and the rest of it keeps a partition of the names that separates accepting names |
| HopcroftsAlgorithm.SplitClass | hopcrofts_algorithm.py:26-34 | `A` is replaced by `set(X)` and its rest, parts of more than one state are pushed, the partition and worklist invariants hold, and the weight drops |
| HopcroftsAlgorithm.SplitPopped | hopcrofts_algorithm.py:15-34 | a popped class is split at most once, at the first symbol whose `X` misses part of it, keeping the invariants and lowering the weight |
| HopcroftsAlgorithm.Refine | hopcrofts_algorithm.py:6-34 | without an exception the classes partition the names and keep accepting and other names apart |
| HopcroftsAlgorithm.NodeKeys | hopcrofts_algorithm.py:36-37 | the node names, each once, in some order |
| HopcroftsAlgorithm.CopyList | hopcrofts_algorithm.py:39-43 | the entry-by-entry copy equals the list |
| HopcroftsAlgorithm.TurnEntering | hopcrofts_algorithm.py:59-64 | triples entering the absorbed state are turned to the representative, and the collected list is the triples leaving it |
| HopcroftsAlgorithm.RemoveMarks | hopcrofts_algorithm.py:65-66 | removing the collected triples leaves exactly those not leaving the absorbed state |
| HopcroftsAlgorithm.Absorb | hopcrofts_algorithm.py:53-66 | the absorbed state leaves the state list, its first accept entry is replaced by the representative at the end, triples leaving it go and triples entering it point at the representative |
| HopcroftsAlgorithm.CollapseClass | hopcrofts_algorithm.py:46-66 | one class of more than one state is collapsed onto its representative |
| HopcroftsAlgorithm.Collapse | hopcrofts_algorithm.py:35-68 | each class of more than one state is collapsed; the result lists the names not absorbed, keeps the start name and alphabet, and holds the collapsed triples |
| HopcroftsAlgorithm.HopcroftMinimize | hopcrofts_algorithm.py:5-68 | an exception of the refinement propagates; otherwise the result is the automaton collapsed along a partition that separates accepting names |
| HopcroftsAlgorithm.StartSurvives | hopcrofts_algorithm.py:48 | the start name is never absorbed |
| HopcroftsAlgorithm.AbsorbedIntoSurvivor | hopcrofts_algorithm.py:49-51 | an absorbed state is absorbed into a surviving state of its own class |
| HopcroftsAlgorithm.OneSurvivor | hopcrofts_algorithm.py:47-51 | each class of more than one state keeps exactly one state, its representative |
| HopcroftsAlgorithm.AcceptsSurvive | hopcrofts_algorithm.py:56-58 | the result's accept names are accepting names that survive |
| HopcroftsAlgorithm.CollapsedMembers | hopcrofts_algorithm.py:59-66 | the result's triples are exactly the source's triples from surviving states, each pointing at its target's representative |
| HopcroftsAlgorithm.CollapsedWithinStates | hopcrofts_algorithm.py:53-66 | for a well-formed automaton every remaining triple joins two surviving names |
| DfaToRe.StateNumbers | dfa_to_re.py:36 | `stateNumMap` numbers exactly the listed names |
| DfaToRe.NumberIsLastPosition | dfa_to_re.py:36 | a listed name is numbered by the last position it occupies |
| DfaToRe.NumberedByPosition | dfa_to_re.py:35-36 | without repeated names, state `k` is numbered `k` |
| DfaToRe.LastInLast | dfa_to_re.py:42-44 | the symbol a cell holds is the last symbol visited that writes into it |
| DfaToRe.MarkTargets | dfa_to_re.py:43-44 | each target's column is set to the symbol, or `KeyError` on a target without a number |
| DfaToRe.FillRow | dfa_to_re.py:41-44 | a row visits the node's symbols once each, in an order left open, and ends as `Cell` describes; a `KeyError` means a target is not numbered |
| DfaToRe.FillMatrix | dfa_to_re.py:39-44 | every row of the m×m matrix is filled, or `KeyError` when a transition leads to an unlisted state |
| DfaToRe.AcceptEntries | dfa_to_re.py:47-49 | `B` has one entry per state, `EPSILON` for an accepting one and `None` otherwise |
| DfaToRe.BuildArdenSystems | dfa_to_re.py:27-51 | `KeyError` exactly when a transition from a listed state leads to an unlisted state; otherwise the system `ArdenOf` describes |
| DfaToRe.CellMeaning | dfa_to_re.py:39-44 | without repeated names, `A[i][j]` is `None` exactly when no transition leads from state i to state j; otherwise it is a symbol of such a transition and no symbol visited after it leads there |
| DfaToRe.AcceptMeaning | dfa_to_re.py:35-49 | `A` is m×m and `B` has length m; `B[i]` is `EPSILON` exactly for accepting states and `None` exactly for the others |
| DfaRead.DfaValidString | dfa_read.py:1-18 | the walk: an error only before the end of the string, `KeyError` for an unlisted state, `IndexError` only past the end |
| DfaRead.WalkIsRun | dfa_read.py:10-18 | from a listed state of a closed automaton, the answer is whether the deterministic run on the rest of the string ends in an accepting state |
| DfaRead.ValidStringIsAccepted | dfa_read.py:1-18 | with the default arguments the result is whether the run from the start state on the whole string ends in an accepting state |
| DfaRead.EmptyString | dfa_read.py:5-9 | "" is accepted exactly when the start state is accepting |
| DfaRead.DefaultStart | dfa_read.py:2-3 | no current state means the start state |
| DfaRead.MissingTransition | dfa_read.py:11-14 | a missing transition on the current character rejects at once |
| DfaRead.SuffixOnly | dfa_read.py:10-18 | the answer from a state at a position depends only on the state and the rest of the string |

## Left out

- The pyparsing grammars and the `Construct*` loaders of description_reader.py:13-115, and scanner.py. They drive a foreign parsing library and read files.
- automata.py, a broken draft whose methods match none of the calls. The `Automata` module is inferred from the callers instead.
- 5_dfa_read.py, a superseded draft of dfa_read.py, and testing.py, a driver that reads test files.
- `ConvertNfaToDfa` (subset_construction.py:54-75). It is unfinished: its worklist body is empty and it returns nothing.
- `__getTransition` (dfa_to_re.py:13-24). It calls `getTransitionState` without a symbol, so it always fails.
- Arden back-substitution and regex simplification. The code has neither.
- Every `__main__` block that prints.
- Aliasing. Several functions mutate objects in place:
  - `revers` swaps the ends of the input's own triples;
  - `hopcroftMinimize` turns targets of triples it shares with the input;
  - the renaming loop of `determinis` rewrites triples shared with its list;
  - Thompson's steps change node objects that the right automaton also holds.

  The model computes the same new values, but over copies. The input is not shown as changed.
- Iteration order of Python sets and dictionaries is left open. No contract picks one order.
- SubsetConstruction.StateSetName: the `repr` of a node object is not visible. The rendering of one element is a parameter `show`. The order in which `sorted` puts node objects is not visible either: the model assumes nodes sort like their names.
- SubsetConstruction.EpsilonClosure: the source passes node objects. The model passes names and looks nodes up in the node map, so a name without a node gives the `KeyError` of the lookup at subset_construction.py:28.
- SubsetConstruction.Move: the same change of representation as EpsilonClosure.
- Brzozowski.Determinis requires `SubsetReady`: every triple joins listed states, and the start list names listed states, each once. Inputs outside this are not modelled.
- Brzozowski.ConvertNfaToMinDfa: minimality and language equivalence with the input are not proved. The contract states the shape of the result only. It requires a well-formed input.
- Brzozowski.Search: the `KeyError` and `TypeError` results are stated one way only. An error implies that some reached state lacks a node or an entry. The converse is not stated.
- Brzozowski.Reachable: the same one-way statement of `KeyError` and `TypeError`. Only `IndexError` is characterised both ways.
- HopcroftsAlgorithm.Splitter: the `KeyError` and `TypeError` results are stated one way only, as for Search.
- HopcroftsAlgorithm.Refine: errors one way only. A state that the refinement left unsplit is not claimed equivalent to the others in its class.
- HopcroftsAlgorithm.HopcroftMinimize: errors one way only. Minimality and language equivalence are not proved. Accept entries are characterised element by element, not as an exact list.
- DfaToRe.FillRow: the order in which a row visits its symbols is a ghost out-parameter. Which symbol a shared cell finally holds depends on that order, and the model leaves it open.
- DfaRead.DfaValidString: the step counter is a `nat`, so a negative `current_step`, which Python would read from the end of the string, is not modelled; only the default argument 0 reaches the function. The bound of at most `len(s)` steps is the function's termination measure, not a contract. `next_state[0].name` is read as the first target name, because the nodes hold names.
- A nil expression below the root of a tree makes `convertRegexToNFA` fail with `AttributeError` on `None`. The model reports this outcome and the names drawn before it (`NamesDrawn`), and does not build anything further.
