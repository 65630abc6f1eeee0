/**
 Two grammars that the source accepts and whose matching has no end: a left recursion hidden
 behind a nested grammar, and a call inside look-behind.
 */
module Limits {
  import opened Common
  import opened Charsets
  import opened Analysis
  import opened Semantics
  import opened Machine
  import opened CodeGen
  import opened Placement
  import opened Correctness
  import opened Peephole
  import opened Verify
  import opened LeftCalls
  import opened Lpeg

  // ---- a left recursion that verifyrule misses

  const X: Byte := 120
  const Y: Byte := 121

  /** A <- !B A, where B is the grammar whose only rule is 'x'. */
  const LOOPING: Grammar := [TSeq(TNot(TGrammar([TChar(X)])), TCall(0))]

  /** verifygrammar accepts it, because verifyrule forgets that a predicate may match the empty string. */
  lemma LoopingAccepted(d: nat)
    ensures Accepted(LOOPING, d) && WellFormedRules(LOOPING, d)
    ensures LeftRecursive(LOOPING, d, 0) && !KeepsFlag(LOOPING, d, LOOPING[0], MAX_RULES, false)
  {
    LoopingRecurs(d);
    var inner := TGrammar([TChar(X)]);
    assert !CheckAux(inner.rules, d, inner.rules[0], PEnullable);
    assert !Nullable(LOOPING, d, inner);
    assert VerifyRule(LOOPING, d, inner, MAX_RULES, true, false) == Passes(false);
    assert VerifyRule(LOOPING, d, TNot(inner), MAX_RULES, false, false) == Passes(false);
    assert VerifyRule(LOOPING, d, LOOPING[0], MAX_RULES, false, false) == Passes(false);
    assert !KeepsFlag(LOOPING, d, inner, MAX_RULES, true);
    assert !KeepsFlag(LOOPING, d, TNot(inner), MAX_RULES, false);
    assert !CheckLoops(LOOPING, d, inner) && !CheckLoops(LOOPING, d, TNot(inner));
    assert Used(LOOPING, 0);
    assert WellFormed(LOOPING, d, inner);
    assert WellFormed(LOOPING, d, TNot(inner));
  }

  lemma LoopingRecurs(d: nat)
    ensures LeftRecursive(LOOPING, d, 0)
  {
    var first := TNot(TGrammar([TChar(X)]));
    assert Empties(LOOPING, d, 0, first);
    assert LeftCall(LOOPING, d, LOOPING[0], 0);
    assert [0, 0][1..] == [0] && [0][1..] == [];
    assert LeftPath(LOOPING, d, LOOPING[0], [0]);
    assert LeftPath(LOOPING, d, LOOPING[0], [0, 0]) && [0, 0][0] == [0, 0][1];
  }

  /** It means nothing at "y": no bound on the calls is enough. */
  lemma {:induction false} LoopingMeaningless(fuel: nat)
    ensures Eval(fuel, LOOPING, LOOPING[0], [Y], 0, true).Out?
  {
    var inner := [TChar(X)];
    assert inner[0] == TChar(X);
    assert Eval(fuel, inner, TChar(X), [Y], 0, true).Fail?;
    assert Eval(fuel, LOOPING, TGrammar(inner), [Y], 0, true).Fail?;
    assert Eval(fuel, LOOPING, TNot(TGrammar(inner)), [Y], 0, true) == Match(0, []);
    if fuel > 0 {
      LoopingMeaningless(fuel - 1);
    }
    assert Eval(fuel, LOOPING, TCall(0), [Y], 0, true).Out?;
  }

  lemma InnerFirst(d: nat)
    ensures var inner := TGrammar([TChar(X)]);
      HeadFail(LOOPING, d, inner) && GetFirst(LOOPING, d, inner, FullSet()) == First(Single(X), false)
  {
    var rules := [TChar(X)];
    assert rules[0] == TChar(X);
    assert GetFirst(LOOPING, d, TGrammar(rules), FullSet()) == GetFirst(rules, d, TChar(X), FullSet());
  }

  lemma TestedByte(c: Byte)
    ensures TestedNot(First(Single(c), false)) == [ITestChar(c, 3), ISlot, IFail]
  {
    SingleKind(c);
    hide KindOf;
    assert Guard(First(Single(c), false), 3) == [ITestChar(c, 3), ISlot];
  }

  lemma NotCode(g: Grammar, d: nat, p: Tree, fl: Charset)
    ensures Gen(g, d, TNot(p), false, NoTest, fl) == GenNot(g, d, p)
  {
  }

  lemma LoopingNot(d: nat, fl: Charset)
    ensures Gen(LOOPING, d, TNot(TGrammar([TChar(X)])), false, NoTest, fl) == [ITestChar(X, 3), ISlot, IFail]
  {
    NotCode(LOOPING, d, TGrammar([TChar(X)]), fl);
    InnerFirst(d);
    TestedByte(X);
    hide Gen, GetFirst, HeadFail, TestedNot;
  }

  lemma LoopingRule(d: nat)
    ensures Gen(LOOPING, d, LOOPING[0], false, NoTest, FullSet()) ==
            [ITestChar(X, 3), ISlot, IFail, IOpenCall(0), ISlot]
  {
    var first := TNot(TGrammar([TChar(X)]));
    var fl, tt := SeqFollow(LOOPING, d, first, TCall(0), FullSet()), SeqTest(LOOPING, first, NoTest);
    LoopingNot(d, fl);
    SeqCode(LOOPING, d, first, TCall(0));
    hide GenNot;
    assert Gen(LOOPING, d, TCall(0), false, tt, FullSet()) == [IOpenCall(0), ISlot];
    hide Gen;
    assert [ITestChar(X, 3), ISlot, IFail] + [IOpenCall(0), ISlot] == [ITestChar(X, 3), ISlot, IFail, IOpenCall(0), ISlot];
  }

  lemma SeqCode(g: Grammar, d: nat, p1: Tree, p2: Tree)
    ensures Gen(g, d, TSeq(p1, p2), false, NoTest, FullSet()) ==
            Gen(g, d, p1, false, NoTest, SeqFollow(g, d, p1, p2, FullSet())) +
            Gen(g, d, p2, false, SeqTest(g, p1, NoTest), FullSet())
  {
  }

  lemma LoopingWhole(d: nat)
    ensures WholeCode(d, TGrammar(LOOPING)) ==
            [ICall(4), ISlot, IJmp(8), ISlot, ITestChar(X, 3), ISlot, IFail, IJmp(-3), ISlot, IRet, IEnd]
  {
    hide Gen;
    var t := TGrammar(LOOPING);
    LoopingRule(d);
    var body := [ITestChar(X, 3), ISlot, IFail, IOpenCall(0), ISlot, IRet];
    assert GenRules(LOOPING, d, t, 0) == [];
    assert GenRules(LOOPING, d, t, 1) == body;
    assert Positions(LOOPING, d, t) == [0];
    var closed := body[3 := IJmp(-3)];
    assert FinalTarget(body, 5, 6) == 5;
    assert CorrectCalls(closed, [0], 5) == CorrectCalls(closed, [0], 6) == closed;
    assert CorrectCalls(body, [0], 3) == closed;
    assert CorrectCalls(body, [0], 0) == CorrectCalls(body, [0], 2) == closed;
    GrammarCode([], d, t, false, NoTest, FullSet());
  }

  /** The code LOOPING compiles to: its test has become a jump to itself. */
  lemma LoopingCode(d: nat)
    ensures Compile(d, TGrammar(LOOPING)) ==
            [ICall(4), ISlot, IEnd, IEmpty, ITestChar(X, 0), ISlot, IFail, IJmp(-3), ISlot, IRet, IEnd]
  {
    LoopingWhole(d);
    hide WholeCode, Optimized;
    var c1 := [ICall(4), ISlot, IEnd, IEmpty, ITestChar(X, 3), ISlot, IFail, IJmp(-3), ISlot, IRet, IEnd];
    LoopingEnd();
    assert [ICall(4), ISlot, IJmp(8), ISlot, ITestChar(X, 3), ISlot, IFail, IJmp(-3), ISlot, IRet, IEnd]
           [2 := IEnd][3 := IEmpty] == c1;
    LoopingJumps(c1);
  }

  lemma LoopingEnd()
    ensures var c0 := [ICall(4), ISlot, IJmp(8), ISlot, ITestChar(X, 3), ISlot, IFail, IJmp(-3), ISlot, IRet, IEnd];
      var c1 := c0[2 := IEnd][3 := IEmpty];
      Optimized(c0, 0) == Optimized(c1, 3)
  {
    hide Optimized;
    var c0 := [ICall(4), ISlot, IJmp(8), ISlot, ITestChar(X, 3), ISlot, IFail, IJmp(-3), ISlot, IRet, IEnd];
    assert FinalTarget(c0, 4, 11) == 4 && Optimize(c0, 0) == c0;
    assert FinalTarget(c0, 2, 11) == FinalTarget(c0, 10, 10) == 10;
    OptimizedStep(c0, 2);
    OptimizedStep(c0, 0);
  }

  lemma LoopingJumps(c1: Code)
    requires c1 == [ICall(4), ISlot, IEnd, IEmpty, ITestChar(X, 3), ISlot, IFail, IJmp(-3), ISlot, IRet, IEnd]
    ensures Optimized(c1, 3) == c1[4 := ITestChar(X, 0)]
  {
    var c2 := c1[4 := ITestChar(X, 0)];
    assert c1[3] == IEmpty && c1[4] == ITestChar(X, 3) && c1[6] == IFail && c1[7] == IJmp(-3);
    assert c1[9] == IRet && c1[10] == IEnd && |c1| == 11;
    assert Optimized(c2, 11) == c2;
    JumpsFold(c1, c2);
  }

  lemma JumpsFold(c1: Code, c2: Code)
    requires |c1| == 11 && c2 == c1[4 := ITestChar(X, 0)] && Optimized(c2, 11) == c2
    requires c1[3] == IEmpty && c1[4] == ITestChar(X, 3) && c1[6] == IFail && c1[7] == IJmp(-3)
    requires c1[9] == IRet && c1[10] == IEnd
    ensures Optimized(c1, 3) == c2
  {
    hide Optimized;
    JumpTarget(c1, 7);
    JumpTarget(c2, 7);
    OptimizedPlain(c2, 10);
    OptimizedPlain(c2, 9);
    JumpKept(c2, 7);
    OptimizedPlain(c2, 6);
    assert Optimize(c1, 4) == c2;
    OptimizedStep(c1, 4);
    OptimizedPlain(c1, 3);
  }

  lemma JumpKept(c: Code, i: nat)
    requires i < |c| && c[i].IJmp? && 0 <= i + c[i].off < |c| && Target(c, i) == i + c[i].off
    requires !Ending(c[i + c[i].off]) && !Committing(c[i + c[i].off])
    ensures Optimized(c, i) == Optimized(c, i + 2)
  {
    assert c[i := IJmp(c[i].off)] == c;
  }

  lemma JumpTarget(c: Code, i: nat)
    requires i < |c| && c[i].IJmp? && 0 <= i + c[i].off < |c| && !c[i + c[i].off].IJmp?
    ensures Target(c, i) == i + c[i].off
  {
    assert FinalTarget(c, i + c[i].off, |c| - 1) == i + c[i].off;
  }

  lemma OptimizedPlain(c: Code, i: nat)
    requires i < |c| && !Labelled(c[i]) && !c[i].IJmp?
    ensures Optimized(c, i) == Optimized(c, i + Size(c[i]))
  {
  }

  lemma OptimizedStep(c: Code, i: nat)
    requires i < |c|
    ensures Optimized(c, i) == Optimized(Optimize(c, i), i + Size(Optimize(c, i)[i]))
  {
  }

  lemma {:induction false} LoopingStays(d: nat, stack: seq<Entry>, n: nat)
    ensures var here := Run(4, 0, stack, []); Steps(Compile(d, TGrammar(LOOPING)), [Y], here, n) == here
    decreases n
  {
    LoopingCode(d);
    hide Compile;
    if n > 0 {
      LoopingStays(d, stack, n - 1);
    }
  }

  /** Matching it against "y" has no end: it has no meaning there, and its code never halts. */
  lemma LoopingRuns(d: nat, out: Outcome)
    ensures forall fuel: nat :: Eval(fuel, LOOPING, LOOPING[0], [Y], 0, true).Out?
    ensures !Halts(Compile(d, TGrammar(LOOPING)), [Y], Start(0), out)
  {
    forall fuel: nat ensures Eval(fuel, LOOPING, LOOPING[0], [Y], 0, true).Out? {
      LoopingMeaningless(fuel);
    }
    var code, stack := Compile(d, TGrammar(LOOPING)), [Return(2), Choice(GIVEUP, 0, 0)];
    LoopingCode(d);
    hide Compile;
    assert [Return(2)] + [Choice(GIVEUP, 0, 0)] == stack;
    assert Step(code, [Y], Start(0)) == Run(4, 0, stack, []);
    if n: nat :| Steps(code, [Y], Start(0), n) == Halt(out) {
      LoopingStays(d, stack, if n > 0 then n - 1 else 0);
    }
  }

  // ---- a call inside look-behind

  /** A <- B(!A), where B is look-behind: lp_behind sees an open call only under a predicate. */
  const BACKWARD: Grammar := [TBehind(0, TNot(TCall(0)))]

  /** Both checks take look-behind to have no calls, and pass it. */
  lemma BackwardAccepted(d: nat)
    ensures WellFormedRules(BACKWARD, d) && Accepted(BACKWARD, d) && AcceptedFixed(BACKWARD, d)
    ensures KeepsFlag(BACKWARD, d, BACKWARD[0], MAX_RULES, false) && !PartsAccepted(d, BACKWARD[0])
  {
    var p := TNot(TCall(0));
    assert Calls(p) == Calls(TCall(0)) == {0};
    assert HasCaptures(BACKWARD, {}, p) == HasCaptures(BACKWARD, {} + {0}, BACKWARD[0]);
    assert !HasCaptures(BACKWARD, {} + {0}, TCall(0)) && !HasCaptures(BACKWARD, {} + {0}, p);
    assert !CheckLoops(BACKWARD, d, TCall(0)) && !CheckLoops(BACKWARD, d, p);
    assert Used(BACKWARD, 0) && WellFormed(BACKWARD, d, TCall(0)) && WellFormed(BACKWARD, d, p);
  }

  /** Matching it has no end on any subject. */
  lemma {:induction false} BackwardRuns(fuel: nat, s: Subject, i: nat)
    requires i <= |s|
    ensures Eval(fuel, BACKWARD, BACKWARD[0], s, i, true).Out?
  {
    if fuel > 0 {
      BackwardRuns(fuel - 1, s, i);
    }
    assert Eval(fuel, BACKWARD, TCall(0), s, i, true).Out?;
    assert Eval(fuel, BACKWARD, TNot(TCall(0)), s, i, true).Out?;
  }

  // ---- a harmless grammar at which the accumulator is lost

  /** A <- B* 'y', where B is the grammar whose only rule is 'x'. */
  const HARMLESS: Grammar := [TSeq(TRep(TGrammar([TChar(X)])), TChar(Y))]

  /** Losing the accumulator does not always hide a left recursion: here there is no call at all. */
  lemma HarmlessBuilt(d: nat)
    ensures !KeepsFlag(HARMLESS, d, HARMLESS[0], MAX_RULES, false)
    ensures Accepted(HARMLESS, d) && Built(d, TGrammar(HARMLESS))
  {
    var inner := TGrammar([TChar(X)]);
    var loop := TRep(inner);
    assert !CheckAux(inner.rules, d, inner.rules[0], PEnullable);
    assert !Nullable(HARMLESS, d, inner);
    assert !KeepsFlag(HARMLESS, d, loop, MAX_RULES, false);
    forall fixed ensures !VerifyRule(HARMLESS, d, HARMLESS[0], MAX_RULES, false, fixed).Error? {
      assert VerifyRule(HARMLESS, d, inner, MAX_RULES, true, fixed) == Passes(fixed);
      assert VerifyRule(HARMLESS, d, loop, MAX_RULES, false, fixed) == Passes(fixed);
      assert VerifyRule(HARMLESS, d, TChar(Y), MAX_RULES, false, fixed) == Passes(false);
    }
    assert !CheckLoops(HARMLESS, d, inner) && !CheckLoops(HARMLESS, d, loop) && !CheckLoops(HARMLESS, d, TChar(Y));
    assert !CheckLoops(HARMLESS, d, HARMLESS[0]);
    assert Used(HARMLESS, 0) && WellFormed(HARMLESS, d, inner) && WellFormed(HARMLESS, d, loop);
    assert WellFormed(HARMLESS, d, TChar(Y)) && WellFormed(HARMLESS, d, HARMLESS[0]);
    assert Resolved(1, TChar(X)) && Resolved(1, inner) && Resolved(1, loop) && Resolved(1, HARMLESS[0]);
    InnerFine(d);
    assert PartsAccepted(d, loop) && PartsAccepted(d, TChar(Y)) && PartsAccepted(d, HARMLESS[0]);
  }

  lemma InnerFine(d: nat)
    ensures PartsAccepted(d, TGrammar([TChar(X)]))
  {
    var rules := [TChar(X)];
    assert !CheckLoops(rules, d, rules[0]);
  }
}
