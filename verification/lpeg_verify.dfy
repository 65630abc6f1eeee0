/**
 Grammar verification (3rd/lpeg/lptree.c:1030-1154): which grammars are accepted, and when
 acceptance means that matching ends.
 */
module Verify {
  import opened Charsets
  import opened Analysis
  import opened Semantics
  import opened Soundness

  const MAX_RULES: nat := 1000

  /** Error: the rule may be left recursive. */
  datatype Verdict = Error | Passes(nullable: bool)

  /**
   verifyrule with `left` more rules allowed on the path; nb is its accumulator. The source
   forgets nb at a nested grammar; with `fixed` it is kept.
   */
  function VerifyRule(g: Grammar, d: nat, t: Tree, left: nat, nb: bool, fixed: bool): Verdict
    decreases left, t
  {
    match t
    case TTrue => Passes(true)
    case TBehind(_, _) => Passes(true)
    case TNot(p) => VerifyRule(g, d, p, left, true, fixed)
    case TAnd(p) => VerifyRule(g, d, p, left, true, fixed)
    case TRep(p) => VerifyRule(g, d, p, left, true, fixed)
    case TCapture(_, p) => VerifyRule(g, d, p, left, nb, fixed)
    case TCall(n) => if left == 0 || n >= |g| then Error else VerifyRule(g, d, g[n], left - 1, nb, fixed)
    case TSeq(p1, p2) =>
      var v := VerifyRule(g, d, p1, left, false, fixed);
      if v.Error? then Error
      else if !v.nullable then Passes(nb)
      else VerifyRule(g, d, p2, left, nb, fixed)
    case TChoice(p1, p2) =>
      var v := VerifyRule(g, d, p1, left, nb, fixed);
      if v.Error? then Error else VerifyRule(g, d, p2, left, v.nullable, fixed)
    case TGrammar(_) => Passes((fixed && nb) || Nullable(g, d, t))
    case _ => Passes(nb)
  }

  /** checkloops: does some repetition have a nullable body? Nested grammars were checked before. */
  predicate CheckLoops(g: Grammar, d: nat, t: Tree) {
    match t
    case TRep(p) => Nullable(g, d, p) || CheckLoops(g, d, p)
    case TSeq(p1, p2) => CheckLoops(g, d, p1) || CheckLoops(g, d, p2)
    case TChoice(p1, p2) => CheckLoops(g, d, p1) || CheckLoops(g, d, p2)
    case TNot(p) => CheckLoops(g, d, p)
    case TAnd(p) => CheckLoops(g, d, p)
    case TBehind(_, p) => CheckLoops(g, d, p)
    case TCapture(_, p) => CheckLoops(g, d, p)
    case _ => false
  }

  /** verifygrammar: every rule somebody calls passes both checks. */
  ghost predicate Accepted(g: Grammar, d: nat) {
    forall k :: 0 <= k < |g| && Used(g, k) ==>
      !VerifyRule(g, d, g[k], MAX_RULES, false, false).Error? && !CheckLoops(g, d, g[k])
  }

  /** The check that verifyrule would make if it kept its accumulator. */
  ghost predicate AcceptedFixed(g: Grammar, d: nat) {
    forall k :: 0 <= k < |g| && Used(g, k) ==>
      !VerifyRule(g, d, g[k], MAX_RULES, false, true).Error? && !CheckLoops(g, d, g[k])
  }

  /** The first half of that check: no rule somebody calls is found left recursive. */
  ghost predicate LeftOk(g: Grammar, d: nat) {
    forall k :: 0 <= k < |g| && Used(g, k) ==> !VerifyRule(g, d, g[k], MAX_RULES, false, true).Error?
  }

  /** On its way through t, verifyrule meets no nested grammar that is not nullable with nb set. */
  predicate KeepsFlag(g: Grammar, d: nat, t: Tree, left: nat, nb: bool)
    decreases left, t
  {
    match t
    case TNot(p) => KeepsFlag(g, d, p, left, true)
    case TAnd(p) => KeepsFlag(g, d, p, left, true)
    case TRep(p) => KeepsFlag(g, d, p, left, true)
    case TCapture(_, p) => KeepsFlag(g, d, p, left, nb)
    case TCall(n) => left > 0 && n < |g| ==> KeepsFlag(g, d, g[n], left - 1, nb)
    case TSeq(p1, p2) =>
      KeepsFlag(g, d, p1, left, false) &&
      (VerifyRule(g, d, p1, left, false, false) == Passes(true) ==> KeepsFlag(g, d, p2, left, nb))
    case TChoice(p1, p2) =>
      KeepsFlag(g, d, p1, left, nb) &&
      (var v := VerifyRule(g, d, p1, left, nb, false); v.Passes? ==> KeepsFlag(g, d, p2, left, v.nullable))
    case TGrammar(_) => nb ==> Nullable(g, d, t)
    case _ => true
  }

  /** Where the flag is kept, the source's check is the corrected one. */
  lemma {:induction false} KeepsFlagAgrees(g: Grammar, d: nat, t: Tree, left: nat, nb: bool)
    requires KeepsFlag(g, d, t, left, nb)
    ensures VerifyRule(g, d, t, left, nb, false) == VerifyRule(g, d, t, left, nb, true)
    decreases left, t
  {
    match t
    case TNot(p) => KeepsFlagAgrees(g, d, p, left, true);
    case TAnd(p) => KeepsFlagAgrees(g, d, p, left, true);
    case TRep(p) => KeepsFlagAgrees(g, d, p, left, true);
    case TCapture(_, p) => KeepsFlagAgrees(g, d, p, left, nb);
    case TCall(n) =>
      if left > 0 && n < |g| {
        KeepsFlagAgrees(g, d, g[n], left - 1, nb);
      }
    case TSeq(p1, p2) =>
      KeepsFlagAgrees(g, d, p1, left, false);
      if VerifyRule(g, d, p1, left, false, false) == Passes(true) {
        KeepsFlagAgrees(g, d, p2, left, nb);
      }
    case TChoice(p1, p2) =>
      KeepsFlagAgrees(g, d, p1, left, nb);
      var v := VerifyRule(g, d, p1, left, nb, false);
      if v.Passes? {
        KeepsFlagAgrees(g, d, p2, left, v.nullable);
      }
    case _ =>
  }

  // ---- what the corrected check guarantees

  lemma {:induction false} FlagStays(g: Grammar, d: nat, t: Tree, left: nat)
    requires !VerifyRule(g, d, t, left, true, true).Error?
    ensures VerifyRule(g, d, t, left, true, true) == Passes(true)
    decreases left, t
  {
    match t
    case TNot(p) => FlagStays(g, d, p, left);
    case TAnd(p) => FlagStays(g, d, p, left);
    case TRep(p) => FlagStays(g, d, p, left);
    case TCapture(_, p) => FlagStays(g, d, p, left);
    case TCall(n) => FlagStays(g, d, g[n], left - 1);
    case TSeq(p1, p2) =>
      if VerifyRule(g, d, p1, left, false, true) == Passes(true) {
        FlagStays(g, d, p2, left);
      }
    case TChoice(p1, p2) => FlagStays(g, d, p1, left); FlagStays(g, d, p2, left);
    case _ =>
  }

  /** A pattern the check calls not nullable takes a character whenever it matches. */
  lemma {:induction false} VerdictSound(fuel: nat, g: Grammar, d: nat, t: Tree, left: nat, s: Subject, i: nat, packed: bool)
    requires i <= |s| && VerifyRule(g, d, t, left, false, true) == Passes(false)
    ensures var r := Eval(fuel, g, t, s, i, packed); r.Match? ==> i < r.pos
    decreases fuel, t
  {
    match t
    case TNot(p) => FlagStays(g, d, p, left);
    case TAnd(p) => FlagStays(g, d, p, left);
    case TRep(p) => FlagStays(g, d, p, left);
    case TCapture(_, p) => VerdictSound(fuel, g, d, p, left, s, i, packed);
    case TCall(n) =>
      if fuel > 0 {
        VerdictSound(fuel - 1, g, d, g[n], left - 1, s, i, packed);
      }
    case TSeq(p1, p2) =>
      EvalAdvances(fuel, g, p1, s, i, packed);
      var r := Eval(fuel, g, p1, s, i, packed);
      if r.Match? {
        EvalAdvances(fuel, g, p2, s, r.pos, packed);
        if VerifyRule(g, d, p1, left, false, true) == Passes(false) {
          VerdictSound(fuel, g, d, p1, left, s, i, packed);
        } else {
          VerdictSound(fuel, g, d, p2, left, s, r.pos, packed);
        }
      }
    case TChoice(p1, p2) =>
      if VerifyRule(g, d, p1, left, false, true) == Passes(true) {
        FlagStays(g, d, p2, left);
      }
      VerdictSound(fuel, g, d, p1, left, s, i, packed);
      VerdictSound(fuel, g, d, p2, left, s, i, packed);
    case TGrammar(_) => NullableSound(fuel, g, d, t, s, i, packed);
    case _ =>
  }

  /** The accumulator never decides whether there is an error. */
  lemma {:induction false} FlagFree(g: Grammar, d: nat, t: Tree, left: nat, a: bool, b: bool)
    ensures VerifyRule(g, d, t, left, a, true).Error? <==> VerifyRule(g, d, t, left, b, true).Error?
    decreases left, t
  {
    match t
    case TCapture(_, p) => FlagFree(g, d, p, left, a, b);
    case TCall(n) =>
      if left > 0 && n < |g| {
        FlagFree(g, d, g[n], left - 1, a, b);
      }
    case TSeq(p1, p2) => FlagFree(g, d, p2, left, a, b);
    case TChoice(p1, p2) =>
      FlagFree(g, d, p1, left, a, b);
      var v, w := VerifyRule(g, d, p1, left, a, true), VerifyRule(g, d, p1, left, b, true);
      if v.Passes? && w.Passes? {
        FlagFree(g, d, p2, left, v.nullable, w.nullable);
      }
    case _ =>
  }

  /** Any part of a rule passes once one more rule is allowed on the path. */
  lemma {:induction false} FreshStart(g: Grammar, d: nat, t: Tree, nb: bool)
    requires LeftOk(g, d) && forall n :: n in Calls(t) ==> Used(g, n)
    ensures !VerifyRule(g, d, t, MAX_RULES + 1, nb, true).Error?
  {
    match t
    case TRep(p) => FreshStart(g, d, p, true);
    case TNot(p) => FreshStart(g, d, p, true);
    case TAnd(p) => FreshStart(g, d, p, true);
    case TCapture(_, p) => FreshStart(g, d, p, nb);
    case TSeq(p1, p2) => FreshStart(g, d, p1, false); FreshStart(g, d, p2, nb);
    case TChoice(p1, p2) =>
      FreshStart(g, d, p1, nb);
      FreshStart(g, d, p2, VerifyRule(g, d, p1, MAX_RULES + 1, nb, true).nullable);
    case TCall(n) =>
      assert Used(g, n);
      FlagFree(g, d, g[n], MAX_RULES, false, nb);
    case _ =>
  }

  // ---- termination

  /** Every grammar nested in t is fine, and look-behind makes no calls. */
  ghost predicate PartsAre(fine: Grammar -> bool, t: Tree)
    decreases t
  {
    match t
    case TRep(p) => PartsAre(fine, p)
    case TSeq(p1, p2) => PartsAre(fine, p1) && PartsAre(fine, p2)
    case TChoice(p1, p2) => PartsAre(fine, p1) && PartsAre(fine, p2)
    case TNot(p) => PartsAre(fine, p)
    case TAnd(p) => PartsAre(fine, p)
    case TBehind(_, p) => PartsAre(fine, p) && Calls(p) == {}
    case TCapture(_, p) => PartsAre(fine, p)
    case TGrammar(rules) => fine(rules) && forall k :: 0 <= k < |rules| && Used(rules, k) ==> PartsAre(fine, rules[k])
    case _ => true
  }

  lemma {:induction false} PartsMore(fine: Grammar -> bool, also: Grammar -> bool, t: Tree)
    requires PartsAre(fine, t) && forall g :: fine(g) ==> also(g)
    ensures PartsAre(also, t)
  {
    match t
    case TRep(p) => PartsMore(fine, also, p);
    case TSeq(p1, p2) => PartsMore(fine, also, p1); PartsMore(fine, also, p2);
    case TChoice(p1, p2) => PartsMore(fine, also, p1); PartsMore(fine, also, p2);
    case TNot(p) => PartsMore(fine, also, p);
    case TAnd(p) => PartsMore(fine, also, p);
    case TBehind(_, p) => PartsMore(fine, also, p);
    case TCapture(_, p) => PartsMore(fine, also, p);
    case TGrammar(rules) =>
      forall k | 0 <= k < |rules| && Used(rules, k) ensures PartsAre(also, rules[k]) {
        PartsMore(fine, also, rules[k]);
      }
    case _ =>
  }

  /** The nested grammars would all pass the corrected check. */
  ghost predicate PartsAccepted(d: nat, t: Tree) { PartsAre((g: Grammar) => AcceptedFixed(g, d), t) }

  ghost predicate RulesAccepted(g: Grammar, d: nat) {
    AcceptedFixed(g, d) && forall k :: 0 <= k < |g| && Used(g, k) ==> PartsAccepted(d, g[k])
  }

  /** A bound large enough for both answers. */
  lemma Enough(f1: nat, f2: nat, g: Grammar, t: Tree, s: Subject, i: nat, packed: bool) returns (f: nat)
    requires i <= |s| && !Eval(f1, g, t, s, i, packed).Out?
    ensures f >= f1 && f >= f2 && Eval(f, g, t, s, i, packed) == Eval(f1, g, t, s, i, packed)
  {
    f := Max(f1, f2);
    EvalMonotone(f1, f, g, t, s, i, packed);
  }

  lemma RepEnds(f1: nat, f2: nat, g: Grammar, p: Tree, s: Subject, i: nat, packed: bool) returns (f: nat)
    requires i <= |s|
    requires var r := Eval(f1, g, p, s, i, packed);
      r.Match? && !Eval(f2, g, TRep(p), s, r.pos, packed).Out?
    ensures !Eval(f, g, TRep(p), s, i, packed).Out?
  {
    var r := Eval(f1, g, p, s, i, packed);
    f := Max(f1, f2 + 1);
    EvalMonotone(f1, f, g, p, s, i, packed);
    EvalMonotone(f2, f - 1, g, TRep(p), s, r.pos, packed);
  }

  lemma SeqEnds(f1: nat, f2: nat, g: Grammar, p1: Tree, p2: Tree, s: Subject, i: nat, packed: bool) returns (f: nat)
    requires i <= |s|
    requires var r := Eval(f1, g, p1, s, i, packed);
      !r.Out? && (r.Match? ==> !Eval(f2, g, p2, s, r.pos, packed).Out?)
    ensures !Eval(f, g, TSeq(p1, p2), s, i, packed).Out?
  {
    var r := Eval(f1, g, p1, s, i, packed);
    f := Enough(f1, f2, g, p1, s, i, packed);
    if r.Match? {
      EvalMonotone(f2, f, g, p2, s, r.pos, packed);
    }
  }

  lemma ChoiceEnds(f1: nat, f2: nat, g: Grammar, p1: Tree, p2: Tree, s: Subject, i: nat, packed: bool) returns (f: nat)
    requires i <= |s| && !Eval(f1, g, p1, s, i, packed).Out? && !Eval(f2, g, p2, s, i, packed).Out?
    ensures !Eval(f, g, TChoice(p1, p2), s, i, packed).Out?
  {
    f := Enough(f1, f2, g, p1, s, i, packed);
    EvalMonotone(f2, f, g, p2, s, i, packed);
  }

  /**
   Matching ends: with `left` rules allowed before the next character is taken, then, once it
   is taken, as many again.
   */
  lemma {:induction false} Terminates(g: Grammar, d: nat, t: Tree, left: nat, nb: bool, s: Subject, i: nat, packed: bool)
      returns (fuel: nat)
    requires i <= |s| && RulesAccepted(g, d) && PartsAccepted(d, t)
    requires WellFormed(g, d, t) && WellFormedRules(g, d)
    requires !VerifyRule(g, d, t, left, nb, true).Error?
    ensures !Eval(fuel, g, t, s, i, packed).Out?
    decreases Max(Nest(t), NestAll(g)), 1, |s| - i, left, t
  {
    hide CheckAux, FixedLen, HasCaptures, Resolved, AcceptedFixed;
    match t
    case TRep(p) =>
      fuel := Terminates(g, d, p, left, true, s, i, packed);
      var r := Eval(fuel, g, p, s, i, packed);
      if r.Match? {
        NullableSound(fuel, g, d, p, s, i, packed);
        var again := TerminatesLater(g, d, t, s, r.pos, packed);
        fuel := RepEnds(fuel, again, g, p, s, i, packed);
      }
    case TSeq(p1, p2) =>
      var f1 := Terminates(g, d, p1, left, false, s, i, packed);
      var f2 := 0;
      var r := Eval(f1, g, p1, s, i, packed);
      if r.Match? {
        EvalAdvances(f1, g, p1, s, i, packed);
        if VerifyRule(g, d, p1, left, false, true) == Passes(false) {
          VerdictSound(f1, g, d, p1, left, s, i, packed);
        }
        if r.pos > i {
          f2 := TerminatesLater(g, d, p2, s, r.pos, packed);
        } else {
          f2 := Terminates(g, d, p2, left, nb, s, i, packed);
        }
      }
      fuel := SeqEnds(f1, f2, g, p1, p2, s, i, packed);
    case TChoice(p1, p2) =>
      var f1 := Terminates(g, d, p1, left, nb, s, i, packed);
      var f2 := Terminates(g, d, p2, left, VerifyRule(g, d, p1, left, nb, true).nullable, s, i, packed);
      fuel := ChoiceEnds(f1, f2, g, p1, p2, s, i, packed);
    case TNot(p) => fuel := Terminates(g, d, p, left, true, s, i, packed);
    case TAnd(p) => fuel := Terminates(g, d, p, left, true, s, i, packed);
    case TCapture(_, p) => fuel := Terminates(g, d, p, left, nb, s, i, packed);
    case TBehind(n, p) =>
      fuel := 0;
      if n <= i {
        fuel := TerminatesCallFree(g, d, p, s, i - n, packed);
      }
    case TCall(n) =>
      var f := Terminates(g, d, g[n], left - 1, nb, s, i, packed);
      fuel := f + 1;
    case TGrammar(rules) => fuel := TerminatesNested(g, d, t, s, i, packed);
    case _ => fuel := 0;
  }

  lemma {:induction false} CallsUsed(g: Grammar, d: nat, t: Tree)
    requires WellFormed(g, d, t)
    ensures forall n :: n in Calls(t) ==> Used(g, n)
  {
    match t
    case TRep(p) => CallsUsed(g, d, p);
    case TSeq(p1, p2) => CallsUsed(g, d, p1); CallsUsed(g, d, p2);
    case TChoice(p1, p2) => CallsUsed(g, d, p1); CallsUsed(g, d, p2);
    case TNot(p) => CallsUsed(g, d, p);
    case TAnd(p) => CallsUsed(g, d, p);
    case TBehind(_, p) => CallsUsed(g, d, p);
    case TCapture(_, p) => CallsUsed(g, d, p);
    case _ =>
  }

  lemma {:induction false} TerminatesLater(g: Grammar, d: nat, t: Tree, s: Subject, i: nat, packed: bool)
      returns (fuel: nat)
    requires i <= |s| && RulesAccepted(g, d) && PartsAccepted(d, t)
    requires WellFormed(g, d, t) && WellFormedRules(g, d)
    ensures !Eval(fuel, g, t, s, i, packed).Out?
    decreases Max(Nest(t), NestAll(g)), 1, |s| - i, MAX_RULES + 2
  {
    CallsUsed(g, d, t);
    FreshStart(g, d, t, false);
    fuel := Terminates(g, d, t, MAX_RULES + 1, false, s, i, packed);
  }

  lemma {:induction false} TerminatesNested(g: Grammar, d: nat, t: Tree, s: Subject, i: nat, packed: bool)
      returns (fuel: nat)
    requires i <= |s| && t.TGrammar? && PartsAccepted(d, t) && WellFormed(g, d, t)
    ensures !Eval(fuel, g, t, s, i, packed).Out?
    decreases Max(Nest(t), NestAll(g)), 0, t, |s| - i, 0
  {
    var rules := t.rules;
    assert Used(rules, 0);
    fuel := Terminates(rules, d, rules[0], MAX_RULES, false, s, i, packed);
  }

  /** Patterns without calls end by their size and the remaining subject alone. */
  lemma {:induction false} TerminatesCallFree(g: Grammar, d: nat, t: Tree, s: Subject, i: nat, packed: bool)
      returns (fuel: nat)
    requires i <= |s| && Calls(t) == {} && PartsAccepted(d, t) && WellFormed(g, d, t)
    ensures !Eval(fuel, g, t, s, i, packed).Out?
    decreases Max(Nest(t), NestAll(g)), 0, t, |s| - i, 1
  {
    hide CheckAux, FixedLen, HasCaptures, Resolved, AcceptedFixed;
    match t
    case TRep(p) =>
      fuel := TerminatesCallFree(g, d, p, s, i, packed);
      var r := Eval(fuel, g, p, s, i, packed);
      if r.Match? {
        NullableSound(fuel, g, d, p, s, i, packed);
        var again := TerminatesCallFree(g, d, t, s, r.pos, packed);
        fuel := RepEnds(fuel, again, g, p, s, i, packed);
      }
    case TSeq(p1, p2) =>
      var f1 := TerminatesCallFree(g, d, p1, s, i, packed);
      var f2 := 0;
      var r := Eval(f1, g, p1, s, i, packed);
      if r.Match? {
        f2 := TerminatesCallFree(g, d, p2, s, r.pos, packed);
      }
      fuel := SeqEnds(f1, f2, g, p1, p2, s, i, packed);
    case TChoice(p1, p2) =>
      var f1 := TerminatesCallFree(g, d, p1, s, i, packed);
      var f2 := TerminatesCallFree(g, d, p2, s, i, packed);
      fuel := ChoiceEnds(f1, f2, g, p1, p2, s, i, packed);
    case TNot(p) => fuel := TerminatesCallFree(g, d, p, s, i, packed);
    case TAnd(p) => fuel := TerminatesCallFree(g, d, p, s, i, packed);
    case TCapture(_, p) => fuel := TerminatesCallFree(g, d, p, s, i, packed);
    case TBehind(n, p) =>
      fuel := 0;
      if n <= i {
        fuel := TerminatesCallFree(g, d, p, s, i - n, packed);
      }
    case TGrammar(_) => fuel := TerminatesNested(g, d, t, s, i, packed);
    case TCall(n) => assert false;
    case _ => fuel := 0;
  }
}
