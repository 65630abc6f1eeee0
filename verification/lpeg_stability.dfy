/**
 The analyses of the source follow calls without a bound; here they follow at most d. For a
 grammar that was verified, every bound from some depth on gives the same answers and the same
 code: the code of the source.
 */
module Stability {
  import opened Charsets
  import opened Analysis
  import opened Semantics
  import opened Soundness
  import opened Machine
  import opened CodeGen
  import opened Correctness
  import opened Verify
  import opened Peephole
  import opened Lpeg

  /** Calls that verification allows before a character is consumed, in one grammar and with one rule to start from. */
  const STEP: nat := MAX_RULES + 2

  /** Every grammar nested in t, in whatever rule, resolved its calls and passed the check when it was built. */
  ghost predicate Checked(v: nat, t: Tree)
    decreases t
  {
    match t
    case TRep(p) => Checked(v, p)
    case TSeq(p1, p2) => Checked(v, p1) && Checked(v, p2)
    case TChoice(p1, p2) => Checked(v, p1) && Checked(v, p2)
    case TNot(p) => Checked(v, p)
    case TAnd(p) => Checked(v, p)
    case TBehind(_, p) => Checked(v, p)
    case TCapture(_, p) => Checked(v, p)
    case TGrammar(rules) =>
      |rules| > 0 && AcceptedFixed(rules, v)
      && forall k :: 0 <= k < |rules| ==> Checked(v, rules[k]) && CallsIn(rules, rules[k])
    case _ => true
  }

  ghost predicate CallsIn(g: Grammar, t: Tree) { forall n :: n in Calls(t) ==> Used(g, n) }

  /** The rules around a tree. */
  ghost predicate Around(g: Grammar, v: nat) {
    LeftOk(g, v) && forall k :: 0 <= k < |g| ==> Checked(v, g[k]) && CallsIn(g, g[k])
  }

  ghost function Level(g: Grammar, t: Tree): nat { Max(Nest(t), NestAll(g)) }

  /** checkaux does not depend on the bound, and what it calls nullable verifyrule does too. */
  lemma {:induction false} CheckStable(g: Grammar, v: nat, t: Tree, left: nat, nb: bool, l: nat, d: nat, e: nat, q: Question)
    requires Around(g, v) && Checked(v, t) && Level(g, t) <= l
    requires !VerifyRule(g, v, t, left, nb, true).Error?
    requires v >= (l + 1) * STEP && d >= left + l * STEP && e >= left + l * STEP
    ensures CheckAux(g, d, t, q) == CheckAux(g, e, t, q)
    ensures CheckAux(g, d, t, q) ==> VerifyRule(g, v, t, left, nb, true).nullable
    decreases l, left, t
  {
    match t
    case TNot(p) => FlagStays(g, v, p, left);
    case TRep(p) => FlagStays(g, v, p, left);
    case TAnd(p) =>
      FlagStays(g, v, p, left);
      CheckStable(g, v, p, left, true, l, d, e, q);
    case TCapture(_, p) => CheckStable(g, v, p, left, nb, l, d, e, q);
    case TSeq(p1, p2) =>
      CheckStable(g, v, p1, left, false, l, d, e, q);
      if CheckAux(g, d, p1, q) { CheckStable(g, v, p2, left, nb, l, d, e, q); }
    case TChoice(p1, p2) =>
      var v1 := VerifyRule(g, v, p1, left, nb, true);
      CheckStable(g, v, p1, left, nb, l, d, e, q);
      CheckStable(g, v, p2, left, v1.nullable, l, d, e, q);
      if v1.nullable { FlagStays(g, v, p2, left); }
    case TCall(n) => CheckStable(g, v, g[n], left - 1, nb, l, d - 1, e - 1, q);
    case TGrammar(rules) =>
      Inside(g, v, t, l);
      CheckStable(rules, v, rules[0], MAX_RULES, false, l - 1, d, e, q);
      CheckStable(rules, v, rules[0], MAX_RULES, false, l - 1, d, v, PEnullable);
      if q.PEnofail? && CheckAux(g, d, t, q) { NoFailNullable(rules, d, rules[0]); }
    case _ =>
  }

  /** What a nested grammar brings along. */
  lemma Inside(g: Grammar, v: nat, t: Tree, l: nat)
    requires t.TGrammar? && Checked(v, t) && Level(g, t) <= l
    ensures l > 0 && |t.rules| > 0 && Around(t.rules, v)
    ensures forall k :: 0 <= k < |t.rules| ==> Level(t.rules, t.rules[k]) <= l - 1
    ensures !VerifyRule(t.rules, v, t.rules[0], MAX_RULES, false, true).Error?
    ensures l * STEP == (l - 1) * STEP + STEP
  {
    assert Used(t.rules, 0);
  }

  /** getfirst does not depend on the bound. */
  lemma {:induction false} FirstStable(g: Grammar, v: nat, t: Tree, left: nat, nb: bool, l: nat, d: nat, e: nat, follow: Charset)
    requires Around(g, v) && Checked(v, t) && Level(g, t) <= l
    requires !VerifyRule(g, v, t, left, nb, true).Error?
    requires v >= (l + 1) * STEP && d >= left + l * STEP && e >= left + l * STEP
    ensures GetFirst(g, d, t, follow) == GetFirst(g, e, t, follow)
    decreases l, left, t
  {
    hide CheckAux;
    match t
    case TRep(p) => FirstStable(g, v, p, left, true, l, d, e, follow);
    case TAnd(p) => FirstStable(g, v, p, left, true, l, d, e, follow);
    case TCapture(_, p) => FirstStable(g, v, p, left, nb, l, d, e, follow);
    case TSeq(p1, p2) =>
      CheckStable(g, v, p1, left, false, l, d, e, PEnullable);
      if Nullable(g, d, p1) {
        FirstStable(g, v, p2, left, nb, l, d, e, follow);
        FirstStable(g, v, p1, left, false, l, d, e, GetFirst(g, d, p2, follow).set_);
      } else {
        FirstStable(g, v, p1, left, false, l, d, e, FullSet());
      }
    case TChoice(p1, p2) =>
      FirstStable(g, v, p1, left, nb, l, d, e, follow);
      FirstStable(g, v, p2, left, VerifyRule(g, v, p1, left, nb, true).nullable, l, d, e, follow);
    case TCall(n) => FirstStable(g, v, g[n], left - 1, nb, l, d - 1, e - 1, follow);
    case TGrammar(rules) =>
      Inside(g, v, t, l);
      FirstStable(rules, v, rules[0], MAX_RULES, false, l - 1, d, e, follow);
    case _ =>
  }

  /** headfail does not depend on the bound; it asks about parts behind the first character, which may call as many rules again. */
  lemma {:induction false} HeadFailStable(g: Grammar, v: nat, t: Tree, left: nat, nb: bool, l: nat, d: nat, e: nat)
    requires Around(g, v) && Checked(v, t) && Level(g, t) <= l && CallsIn(g, t)
    requires !VerifyRule(g, v, t, left, nb, true).Error?
    requires v >= (l + 1) * STEP && d >= left + (l + 1) * STEP && e >= left + (l + 1) * STEP
    ensures HeadFail(g, d, t) == HeadFail(g, e, t)
    decreases l, left, t
  {
    hide CheckAux;
    match t
    case TAnd(p) => HeadFailStable(g, v, p, left, true, l, d, e);
    case TCapture(_, p) => HeadFailStable(g, v, p, left, nb, l, d, e);
    case TSeq(p1, p2) =>
      FreshStart(g, v, p2, false);
      CheckStable(g, v, p2, MAX_RULES + 1, false, l, d, e, PEnofail);
      HeadFailStable(g, v, p1, left, false, l, d, e);
    case TChoice(p1, p2) =>
      HeadFailStable(g, v, p1, left, nb, l, d, e);
      HeadFailStable(g, v, p2, left, VerifyRule(g, v, p1, left, nb, true).nullable, l, d, e);
    case TCall(n) => HeadFailStable(g, v, g[n], left - 1, nb, l, d - 1, e - 1);
    case TGrammar(rules) =>
      Inside(g, v, t, l);
      assert CallsIn(rules, rules[0]);
      HeadFailStable(rules, v, rules[0], MAX_RULES, false, l - 1, d, e);
    case _ =>
  }

  /** The depth from which on the bound plays no part at level l. */
  ghost function Deep(l: nat): nat { MAX_RULES + 1 + (l + 1) * STEP }

  ghost predicate Fits(g: Grammar, v: nat, t: Tree, l: nat, d: nat, e: nat) {
    Around(g, v) && Checked(v, t) && Level(g, t) <= l && CallsIn(g, t) && v >= (l + 1) * STEP && d >= Deep(l) && e >= Deep(l)
  }

  /** What code generation asks about any part of a rule does not depend on the bound. */
  lemma PartStable(g: Grammar, v: nat, t: Tree, l: nat, d: nat, e: nat, follow: Charset)
    requires Fits(g, v, t, l, d, e)
    ensures GetFirst(g, d, t, follow) == GetFirst(g, e, t, follow) && HeadFail(g, d, t) == HeadFail(g, e, t)
  {
    FreshStart(g, v, t, false);
    FirstStable(g, v, t, MAX_RULES + 1, false, l, d, e, follow);
    HeadFailStable(g, v, t, MAX_RULES + 1, false, l, d, e);
  }

  /** codegen does not depend on the bound. */
  lemma {:induction false} GenStable(g: Grammar, v: nat, t: Tree, opt: bool, tt: Test, fl: Charset, l: nat, d: nat, e: nat)
    requires Fits(g, v, t, l, d, e)
    ensures Gen(g, d, t, opt, tt, fl) == Gen(g, e, t, opt, tt, fl)
    decreases t, 1, 0
  {
    hide GetFirst, HeadFail, CheckAux, AcceptedFixed, FixedLen, HasCaptures, CorrectCalls, TestCode, Guard;
    match t
    case TRep(p) =>
      var f := GetFirst(g, d, p, FullSet());
      PartStable(g, v, p, l, d, e, FullSet());
      GenStable(g, v, p, false, TestOf(First(f.set_, false)), FullSet(), l, d, e);
      GenStable(g, v, p, false, NoTest, FullSet(), l, d, e);
    case TSeq(p1, p2) =>
      PartStable(g, v, p2, l, d, e, fl);
      GenStable(g, v, p1, false, tt, SeqFollow(g, d, p1, p2, fl), l, d, e);
      GenStable(g, v, p2, opt, SeqTest(g, p1, tt), fl, l, d, e);
    case TChoice(p1, p2) => ChoiceStable(g, v, p1, p2, opt, fl, l, d, e);
    case TNot(p) =>
      PartStable(g, v, p, l, d, e, FullSet());
      GenStable(g, v, p, false, NoTest, FullSet(), l, d, e);
    case TAnd(p) => GenStable(g, v, p, false, tt, FullSet(), l, d, e);
    case TBehind(n, p) => GenStable(g, v, p, false, NoTest, FullSet(), l, d, e);
    case TCapture(_, p) => GenStable(g, v, p, false, tt, fl, l, d, e);
    case TGrammar(rules) =>
      Inside(g, v, t, l);
      RulesStable(rules, v, t, |rules|, l - 1, d, e);
      PositionsStable(rules, v, t, l - 1, d, e);
    case _ =>
  }

  lemma {:induction false} ChoiceStable(g: Grammar, v: nat, p1: Tree, p2: Tree, opt: bool, fl: Charset, l: nat, d: nat, e: nat)
    requires Fits(g, v, TChoice(p1, p2), l, d, e)
    ensures GenChoice(g, d, p1, p2, opt, fl) == GenChoice(g, e, p1, p2, opt, fl)
    decreases TChoice(p1, p2), 0, 0
  {
    hide GetFirst, HeadFail, CheckAux, AcceptedFixed, TestCode, Guard;
    var f := GetFirst(g, d, p1, FullSet());
    PartStable(g, v, p1, l, d, e, FullSet());
    PartStable(g, v, p2, l, d, e, fl);
    GenStable(g, v, p1, false, TestOf(First(f.set_, false)), fl, l, d, e);
    GenStable(g, v, p1, true, NoTest, FullSet(), l, d, e);
    GenStable(g, v, p1, p2.TTrue?, TestOf(f), FullSet(), l, d, e);
    GenStable(g, v, p2, opt, NoTest, fl, l, d, e);
  }

  lemma {:induction false} RulesStable(rules: Grammar, v: nat, t: Tree, k: nat, l: nat, d: nat, e: nat)
    requires t == TGrammar(rules) && k <= |rules| && Around(rules, v) && v >= (l + 1) * STEP && d >= Deep(l) && e >= Deep(l)
    requires forall i :: 0 <= i < |rules| ==> Level(rules, rules[i]) <= l
    ensures GenRules(rules, d, t, k) == GenRules(rules, e, t, k)
    decreases t, 0, k
  {
    hide Gen;
    if k > 0 {
      RulesStable(rules, v, t, k - 1, l, d, e);
      GenStable(rules, v, rules[k - 1], false, NoTest, FullSet(), l, d, e);
    }
  }

  lemma {:induction false} PositionsStable(rules: Grammar, v: nat, t: Tree, l: nat, d: nat, e: nat)
    requires t == TGrammar(rules) && Around(rules, v) && v >= (l + 1) * STEP && d >= Deep(l) && e >= Deep(l)
    requires forall i :: 0 <= i < |rules| ==> Level(rules, rules[i]) <= l
    ensures Positions(rules, d, t) == Positions(rules, e, t)
    decreases t, 0, |rules| + 1
  {
    hide GenRules;
    forall k | 0 <= k < |rules|
      ensures Positions(rules, d, t)[k] == Positions(rules, e, t)[k]
    {
      RulesStable(rules, v, t, k, l, d, e);
    }
  }

  /**
   For a complete pattern whose grammars were checked, all bounds from Deep(Nest(t)) on compile to the
   same code: the bound stands for the source's unbounded queries.
   */
  lemma CompileStable(t: Tree, v: nat, d: nat, e: nat)
    requires Checked(v, t) && Calls(t) == {} && v >= Deep(Nest(t)) && d >= Deep(Nest(t)) && e >= Deep(Nest(t))
    ensures Compile(d, t) == Compile(e, t)
  {
    assert NestAll([]) == 0;
    GenStable([], v, t, false, NoTest, FullSet(), Nest(t), d, e);
  }
}
