/**
  `dfa_valid_string` of dfa_read.py: walks a deterministic automaton
  along a string, one character per step, and reports whether the walk
  ends in an accepting state. Each character is looked up as the
  one-character symbol it is in the description files, and the walk
  follows the first target the node lists.
*/
module DfaRead {
  import opened Wrappers
  import opened Names
  import opened Automata

  /**
    Lines 1-18: the walk from `current` (the start state when `None`) at
    position `step` of `s`. Looking up an unlisted state raises
    `KeyError` (line 11), a position past the end raises `IndexError`
    (line 12), and a missing transition rejects the string (lines 13-14).
  */
  function DfaValidString(a: Dfa, s: string, current: Option<StateName>, step: nat): (r: Result<bool, Raised>)
    ensures r.Err? ==> step != |s|
    ensures r.Err? ==> r.error == KeyError || (r.error == IndexError && step > |s|)
    decreases if step <= |s| then |s| - step else 0
  {
    var q := if current.None? then a.start else current.value;
    if step == |s| then Ok(q in a.accepts)
    else if q !in a.states then Err(KeyError)
    else if step > |s| then Err(IndexError)
    else
      match Step(a, q, [s[step]])
      case None => Ok(false)
      case Some(targets) =>
        StepTargets(a, q, [s[step]]);
        DfaValidString(a, s, Some(targets[0]), step + 1)
  }

  /** The deterministic transition function: the first target of `q` on the character `c`, if any. */
  function Delta(ts: seq<Triple>, q: StateName, c: char): Option<StateName>
  {
    var targets := TargetsIn(ts, q, [c]);
    if targets == [] then None else Some(targets[0])
  }

  /** The extended transition function: the state reached from `q` by reading `w`, or `None` when stuck. */
  function Run(ts: seq<Triple>, q: StateName, w: string): Option<StateName>
    decreases |w|
  {
    if w == [] then Some(q)
    else
      match Delta(ts, q, w[0])
      case None => None
      case Some(p) => Run(ts, p, w[1..])
  }

  /** Reading `w` from `q` ends in an accepting state. */
  predicate Accepted(a: Dfa, q: StateName, w: string)
  {
    match Run(a.transitions, q, w)
    case None => false
    case Some(p) => p in a.accepts
  }

  /** Every transition out of a listed state goes to a listed state, so the walk never raises `KeyError`. */
  predicate Closed(a: Dfa)
  {
    forall k :: 0 <= k < |a.transitions| && a.transitions[k].from in a.states ==> a.transitions[k].to in a.states
  }

  /** One step of the walk from a listed state follows `Delta`, and stays among the listed states. */
  lemma WalkStep(a: Dfa, q: StateName, c: char)
    requires q in a.states && Closed(a)
    ensures Step(a, q, [c]).None? <==> Delta(a.transitions, q, c).None?
    ensures Step(a, q, [c]).Some? ==>
      && |Step(a, q, [c]).value| > 0
      && Step(a, q, [c]).value[0] == Delta(a.transitions, q, c).value
      && Delta(a.transitions, q, c).value in a.states
  {
    StepTargets(a, q, [c]);
    var targets := TargetsIn(a.transitions, q, [c]);
    if targets != [] {
      TargetsInMembers(a.transitions, q, [c], targets[0]);
    }
  }

  /**
    Lines 10-18 against the extended transition function: from a listed
    state of a closed automaton, the walk at `step` answers whether the
    rest of the string `s[step..]` leads to an accepting state.
  */
  lemma {:induction false} WalkIsRun(a: Dfa, s: string, q: StateName, step: nat)
    requires Closed(a) && q in a.states && step <= |s|
    ensures DfaValidString(a, s, Some(q), step) == Ok(Accepted(a, q, s[step..]))
    decreases |s| - step
  {
    if step < |s| {
      var w := s[step..];
      assert w[0] == s[step] && w[1..] == s[step + 1..];
      WalkStep(a, q, s[step]);
      if Delta(a.transitions, q, s[step]).Some? {
        WalkIsRun(a, s, Delta(a.transitions, q, s[step]).value, step + 1);
      }
    }
  }

  /**
    The whole walk (default arguments): a closed automaton whose start
    state is listed accepts `s` exactly when reading `s` from the start
    state ends in an accepting state.
  */
  lemma ValidStringIsAccepted(a: Dfa, s: string)
    requires Closed(a) && a.start in a.states
    ensures DfaValidString(a, s, None, 0) == Ok(Accepted(a, a.start, s))
  {
    WalkIsRun(a, s, a.start, 0);
    assert s[0..] == s;
  }

  /** Lines 5-9: the empty string is accepted exactly when the start state is accepting. */
  lemma EmptyString(a: Dfa)
    ensures DfaValidString(a, "", None, 0) == Ok(a.start in a.accepts)
  {
  }

  /** Lines 2-3: no current state means the start state. */
  lemma DefaultStart(a: Dfa, s: string, step: nat)
    ensures DfaValidString(a, s, None, step) == DfaValidString(a, s, Some(a.start), step)
  {
  }

  /** Lines 11-14: a listed state without a transition on the current character rejects at once. */
  lemma MissingTransition(a: Dfa, s: string, q: StateName, step: nat)
    requires q in a.states && step < |s| && TargetsIn(a.transitions, q, [s[step]]) == []
    ensures DfaValidString(a, s, Some(q), step) == Ok(false)
  {
    StepTargets(a, q, [s[step]]);
  }

  /** Lines 10-18: the answer from `q` at `step` depends only on `q` and the rest of the string. */
  lemma {:induction false} SuffixOnly(a: Dfa, s: string, t: string, q: StateName, i: nat, j: nat)
    requires i <= |s| && j <= |t| && s[i..] == t[j..]
    ensures DfaValidString(a, s, Some(q), i) == DfaValidString(a, t, Some(q), j)
    decreases |s| - i
  {
    assert |s| - i == |t| - j;
    if i < |s| {
      assert s[i] == s[i..][0] == t[j..][0] == t[j];
      if q in a.states {
        match Step(a, q, [s[i]])
        case None =>
        case Some(targets) =>
          StepTargets(a, q, [s[i]]);
          assert s[i + 1..] == s[i..][1..] == t[j..][1..] == t[j + 1..];
          SuffixOnly(a, s, t, targets[0], i + 1, j + 1);
      }
    }
  }
}
