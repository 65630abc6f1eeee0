/**
 Where code sits in the final code array, and what correctcalls makes of the open calls of a
 grammar (3rd/lpeg/lpcode.c:871-918).
 */
module Placement {
  import opened Charsets
  import opened Analysis
  import opened Semantics
  import opened Machine
  import opened CodeGen

  /** Following jumps from q reaches a return. */
  ghost predicate JumpsToReturn(code: Code, q: int, n: nat)
    decreases n
  {
    0 <= q < |code| &&
    (code[q].IRet? || (n > 0 && code[q].IJmp? && JumpsToReturn(code, q + code[q].off, n - 1)))
  }

  ghost predicate ReturnFollows(code: Code, q: int) { exists n: nat :: JumpsToReturn(code, q, n) }

  /** Slot q of the final code realises instruction i, env giving the addresses of the rules. */
  ghost predicate Realises(code: Code, q: int, i: Instr, env: seq<int>) {
    0 <= q < |code| &&
    if i.IOpenCall? then
      i.rule < |env| &&
      (code[q] == ICall(env[i.rule] - q) ||
       (code[q] == IJmp(env[i.rule] - q) && ReturnFollows(code, q + 2)))
    else code[q] == i
  }

  ghost predicate Placed(code: Code, pc: int, c: Code, env: seq<int>) {
    forall k :: 0 <= k < |c| ==> Realises(code, pc + k, c[k], env)
  }

  lemma PlacedSplit(code: Code, pc: int, a: Code, b: Code, env: seq<int>)
    requires Placed(code, pc, a + b, env)
    ensures Placed(code, pc, a, env) && Placed(code, pc + |a|, b, env)
  {
    forall k | 0 <= k < |a| ensures Realises(code, pc + k, a[k], env) {
      assert (a + b)[k] == a[k];
    }
    forall k | 0 <= k < |b| ensures Realises(code, pc + |a| + k, b[k], env) {
      assert (a + b)[|a| + k] == b[k];
    }
  }

  /** A program: final code, subject, and the grammar whose rules sit at the addresses in env. */
  datatype Program = Program(code: Code, s: Subject, g: Grammar, d: nat, env: seq<int>)

  function RuleCode(g: Grammar, d: nat, t: Tree): Code {
    Gen(g, d, t, false, NoTest, FullSet()) + [IRet]
  }

  ghost predicate RulesPlaced(x: Program) {
    |x.env| == |x.g| && WellFormedRules(x.g, x.d) &&
    forall n :: 0 <= n < |x.g| ==> Placed(x.code, x.env[n], RuleCode(x.g, x.d, x.g[n]), x.env)
  }

  // ---- codes are sequences of whole instructions

  /** From slot i on, code consists of whole instructions followed by their own slots. */
  ghost predicate Whole(code: Code, i: nat)
    decreases |code| - i
  {
    i == |code| ||
    (i < |code| && i + Size(code[i]) <= |code| &&
     (forall m :: i < m < i + Size(code[i]) ==> code[m] == ISlot) &&
     Whole(code, i + Size(code[i])))
  }

  lemma {:induction false} WholeShift(a: Code, b: Code, i: nat)
    requires Whole(b, i)
    ensures Whole(a + b, |a| + i)
    decreases |b| - i
  {
    if i < |b| {
      WholeShift(a, b, i + Size(b[i]));
    }
  }

  lemma {:induction false} WholeAppend(a: Code, b: Code, i: nat)
    requires Whole(a, i) && Whole(b, 0)
    ensures Whole(a + b, i)
    decreases |a| - i
  {
    if i == |a| {
      WholeShift(a, b, 0);
    } else {
      WholeAppend(a, b, i + Size(a[i]));
    }
  }

  lemma WholeOne(i: Instr, c: Code)
    requires |c| == Size(i) && c[0] == i && forall m :: 0 < m < |c| ==> c[m] == ISlot
    ensures Whole(c, 0)
  {
    assert Whole(c, |c|);
  }

  lemma WholeTest(cs: Charset, off: int)
    ensures Whole(TestCode(cs, off), 0)
  {
    hide Compact, KindOf;
    WholeOne(TestCode(cs, off)[0], TestCode(cs, off));
  }

  // ---- correctcalls

  /** Slot k of a corrected grammar: open calls closed, everything else as it was. */
  ghost predicate Closed(before: Code, after: Code, positions: seq<nat>, k: int) {
    0 <= k < |before| && |after| == |before| &&
    if before[k].IOpenCall? then
      before[k].rule < |positions| &&
      (after[k] == ICall(positions[before[k].rule] - k) ||
       (after[k] == IJmp(positions[before[k].rule] - k) && ReturnFollows(after, k + 2)))
    else after[k] == before[k]
  }

  lemma {:induction false} ChainStays(before: Code, after: Code, q: int, bound: nat)
    requires |after| == |before| && FinalTarget(before, q, bound) >= 0
    requires before[FinalTarget(before, q, bound)].IRet?
    requires forall k :: 0 <= k < |before| && !before[k].IOpenCall? ==> after[k] == before[k]
    ensures JumpsToReturn(after, q, bound)
    decreases bound
  {
    if before[q].IJmp? {
      ChainStays(before, after, q + before[q].off, bound - 1);
    }
  }

  lemma {:induction false} CorrectCallsKeeps(code: Code, positions: seq<nat>, i: nat)
    ensures var r := CorrectCalls(code, positions, i);
      forall k :: 0 <= k < |code| && (k < i || !code[k].IOpenCall?) ==> r[k] == code[k]
    decreases |code| - i
  {
    if i < |code| {
      if code[i].IOpenCall? && code[i].rule < |positions| {
        var off := positions[code[i].rule] - i;
        CorrectCallsKeeps(code[i := if TailCall(code, i) then IJmp(off) else ICall(off)], positions, i + 2);
      } else {
        CorrectCallsKeeps(code, positions, i + Size(code[i]));
      }
    }
  }

  lemma CallClosed(code: Code, positions: seq<nat>, i: nat)
    requires i < |code| && code[i].IOpenCall? && code[i].rule < |positions|
    ensures Closed(code, CorrectCalls(code, positions, i), positions, i)
  {
    var r := CorrectCalls(code, positions, i);
    var off := positions[code[i].rule] - i;
    var closed := code[i := if TailCall(code, i) then IJmp(off) else ICall(off)];
    CorrectCallsKeeps(code, positions, i);
    CorrectCallsKeeps(closed, positions, i + 2);
    assert r == CorrectCalls(closed, positions, i + 2) && r[i] == closed[i];
    if TailCall(code, i) {
      ChainStays(code, r, i + 2, |code|);
    }
  }

  /** correctcalls closes every open call from slot i on, and only those. */
  lemma {:induction false} CorrectCallsSound(code: Code, positions: seq<nat>, i: nat)
    requires Whole(code, i)
    requires forall k :: 0 <= k < |code| && code[k].IOpenCall? ==> code[k].rule < |positions|
    ensures forall k :: i <= k < |code| ==> Closed(code, CorrectCalls(code, positions, i), positions, k)
    decreases |code| - i
  {
    hide FinalTarget, TailCall;
    var r := CorrectCalls(code, positions, i);
    CorrectCallsKeeps(code, positions, i);
    if i < |code| {
      if code[i].IOpenCall? {
        var off := positions[code[i].rule] - i;
        var closed := code[i := if TailCall(code, i) then IJmp(off) else ICall(off)];
        WholeElsewhere(code, closed, i + 2);
        CorrectCallsSound(closed, positions, i + 2);
        CallClosed(code, positions, i);
        assert code[i + 1] == ISlot;
        hide Whole, CorrectCalls;
        forall k | i <= k < |code| ensures Closed(code, r, positions, k) {
          if k >= i + 2 {
            assert Closed(closed, r, positions, k);
          }
        }
      } else {
        CorrectCallsSound(code, positions, i + Size(code[i]));
        forall k | i <= k < |code| ensures Closed(code, r, positions, k) {
          if i < k < i + Size(code[i]) {
            assert code[k] == ISlot;
          }
        }
      }
    }
  }

  lemma {:induction false} WholeElsewhere(a: Code, b: Code, i: nat)
    requires Whole(a, i) && |b| == |a| && forall k :: i <= k < |a| ==> b[k] == a[k]
    ensures Whole(b, i)
    decreases |a| - i
  {
    if i < |a| {
      WholeElsewhere(a, b, i + Size(a[i]));
    }
  }

  lemma {:induction false} CorrectCallsWhole(code: Code, positions: seq<nat>, i: nat, j: nat)
    requires Whole(code, j)
    ensures Whole(CorrectCalls(code, positions, i), j)
    decreases |code| - i
  {
    if i < |code| {
      if code[i].IOpenCall? && code[i].rule < |positions| {
        var off := positions[code[i].rule] - i;
        var closed := code[i := if TailCall(code, i) then IJmp(off) else ICall(off)];
        WholeClosed(code, closed, i, j);
        CorrectCallsWhole(closed, positions, i + 2, j);
      } else {
        CorrectCallsWhole(code, positions, i + Size(code[i]), j);
      }
    }
  }

  lemma {:induction false} WholeClosed(a: Code, b: Code, i: nat, j: nat)
    requires Whole(a, j) && i < |a| == |b| && a[i].IOpenCall? && b == a[i := b[i]] && Size(b[i]) == 2
    ensures Whole(b, j)
    decreases |a| - j
  {
    if j < |a| {
      WholeClosed(a, b, i, j + Size(a[j]));
    }
  }

  // ---- the generated code is made of whole instructions and stays inside itself

  /** Whole instructions, calls to the first n rules only, no jump to before the code. */
  ghost predicate Fine(c: Code, n: nat) {
    Whole(c, 0) &&
    (forall k :: 0 <= k < |c| && c[k].IOpenCall? ==> c[k].rule < n) &&
    forall k :: 0 <= k < |c| && c[k].IJmp? ==> k + c[k].off >= 0
  }

  lemma FineAppend(a: Code, b: Code, n: nat)
    requires Fine(a, n) && Fine(b, n)
    ensures Fine(a + b, n)
  {
    WholeAppend(a, b, 0);
  }

  lemma FineOne(i: Instr, c: Code, n: nat)
    requires |c| == Size(i) && c[0] == i && (forall m :: 0 < m < |c| ==> c[m] == ISlot)
    requires !i.IOpenCall? && (i.IJmp? ==> i.off >= 0)
    ensures Fine(c, n)
  {
    WholeOne(i, c);
  }

  lemma FineTest(cs: Charset, off: nat, n: nat)
    ensures Fine(TestCode(cs, off), n)
  {
    FineOne(TestCode(cs, off)[0], TestCode(cs, off), n);
  }

  lemma FineGuard(f: First, off: nat, n: nat)
    ensures Fine(Guard(f, off), n)
  {
    if !f.empty {
      FineTest(f.set_, off, n);
    }
  }

  lemma FineJump(i: Instr, n: nat)
    requires Size(i) == 2 && !i.IOpenCall? && (i.IJmp? ==> i.off >= 0)
    ensures Fine([i, ISlot], n)
  {
    if i.ITestSet? {
      assert i.cs.slots == 0;
    }
    FineOne(i, [i, ISlot], n);
  }

  lemma FineBack(a: Code, m: int, n: nat)
    requires Fine(a, n) && 0 <= m <= |a|
    ensures Fine(a + [IJmp(-m), ISlot], n)
  {
    WholeOne(IJmp(-m), [IJmp(-m), ISlot]);
    WholeAppend(a, [IJmp(-m), ISlot], 0);
  }

  lemma FinePlain(i: Instr, n: nat)
    requires Size(i) == 1 && !i.IOpenCall?
    ensures Fine([i], n)
  {
    FineOne(i, [i], n);
  }

  lemma FineFive(a: Code, b: Code, c: Code, d: Code, e: Code, n: nat)
    requires Fine(a, n) && Fine(b, n) && Fine(c, n) && Fine(d, n) && Fine(e, n)
    ensures Fine(a + b + c, n) && Fine(a + b + c + d, n) && Fine(a + b + c + d + e, n)
  {
    hide Fine;
    FineAppend(a, b, n);
    FineAppend(a + b, c, n);
    FineAppend(a + b + c, d, n);
    FineAppend(a + b + c + d, e, n);
  }

  lemma FineTestedChoice(cs: Charset, c1: Code, c2: Code, p2: Tree, n: nat)
    requires Fine(c1, n) && Fine(c2, n)
    ensures Fine(TestedChoice(cs, c1, c2, p2), n)
  {
    hide Fine, TestCode;
    var jmp := JumpOver(c2, p2);
    if p2.TTrue? {
      FineNone(n);
    } else {
      FineJump(IJmp(|c2| + 2), n);
    }
    FineTest(cs, TestSize(cs) + |c1| + |jmp|, n);
    FineFive(TestCode(cs, TestSize(cs) + |c1| + |jmp|), c1, jmp, c2, c2, n);
  }

  lemma FineStackedChoice(f: First, c1: Code, c2: Code, n: nat)
    requires Fine(c1, n) && Fine(c2, n)
    ensures Fine(StackedChoice(f, c1, c2), n)
  {
    hide Fine, Guard;
    FineGuard(f, GuardSize(f) + |c1| + 4, n);
    FineJump(IChoice(|c1| + 4), n);
    FineJump(ICommit(|c2| + 2), n);
    FineFive(Guard(f, GuardSize(f) + |c1| + 4), [IChoice(|c1| + 4), ISlot], c1, [ICommit(|c2| + 2), ISlot], c2, n);
  }

  lemma FineNone(n: nat)
    ensures Fine([], n)
  {
  }

  lemma FineTestedLoop(cs: Charset, c: Code, n: nat)
    requires Fine(c, n)
    ensures Fine(TestedLoop(cs, c), n)
  {
    hide Fine, TestCode;
    var m := TestSize(cs) + |c|;
    FineTest(cs, m + 2, n);
    FineAppend(TestCode(cs, m + 2), c, n);
    FineBack(TestCode(cs, m + 2) + c, m, n);
  }

  lemma FineStackedLoop(f: First, c: Code, opt: bool, n: nat)
    requires Fine(c, n)
    ensures Fine(StackedLoop(f, c, opt), n)
  {
    hide Fine, Guard;
    var choice := if opt then IPartialCommit(2) else IChoice(|c| + 4);
    FineGuard(f, GuardSize(f) + |c| + 4, n);
    FineJump(choice, n);
    FineJump(IPartialCommit(-|c|), n);
    FineFive(Guard(f, GuardSize(f) + |c| + 4), [choice, ISlot], c, [IPartialCommit(-|c|), ISlot], c, n);
  }

  lemma FineTestedNot(f: First, n: nat)
    ensures Fine(TestedNot(f), n)
  {
    hide Fine, Guard;
    FinePlain(IFail, n);
    FineGuard(f, GuardSize(f) + 1, n);
    FineAppend(Guard(f, GuardSize(f) + 1), [IFail], n);
  }

  lemma FineStackedNot(f: First, c: Code, n: nat)
    requires Fine(c, n)
    ensures Fine(StackedNot(f, c), n)
  {
    hide Fine, Guard;
    FinePlain(IFailTwice, n);
    FineGuard(f, GuardSize(f) + |c| + 3, n);
    FineJump(IChoice(|c| + 3), n);
    FineFive(Guard(f, GuardSize(f) + |c| + 3), [IChoice(|c| + 3), ISlot], c, [IFailTwice], c, n);
  }

  lemma FineStackedAnd(c: Code, n: nat)
    requires Fine(c, n)
    ensures Fine(StackedAnd(c), n)
  {
    hide Fine;
    FinePlain(IFail, n);
    FineJump(IChoice(|c| + 4), n);
    FineJump(IBackCommit(3), n);
    FineFive([IChoice(|c| + 4), ISlot], c, [IBackCommit(3), ISlot], [IFail], c, n);
  }

  lemma FineStepBack(m: int, n: nat)
    ensures Fine(StepBack(m), n)
  {
    if m > 0 {
      FinePlain(IBehind(m), n);
    }
  }

  lemma FineRepCharset(p: Tree, n: nat)
    requires IsCharset(p)
    ensures Fine(RepCharset(p), n)
  {
    if p.TSet? {
      FineOne(ISpan(Compact(p.cs)), RepCharset(p), n);
    } else if p.TAny? || p.TChar? {
      var test := RepCharset(p)[0];
      FineJump(test, n);
      FinePlain(IAny, n);
      FineAppend([test, ISlot], [IAny], n);
      FineBack([test, ISlot] + [IAny], 3, n);
      assert RepCharset(p) == [test, ISlot] + [IAny] + [IJmp(-3), ISlot];
    }
  }

  lemma {:induction false} GenFine(g: Grammar, d: nat, t: Tree, opt: bool, tt: Test, fl: Charset, n: nat)
    requires Resolved(n, t)
    ensures Fine(Gen(g, d, t, opt, tt, fl), n)
    decreases t, 1, 0
  {
    hide Fine, GetFirst, Guard, TestCode, CheckAux, FixedLen, HasCaptures, Compact, CorrectCalls;
    match t
    case TChar(_) => FinePlain(Gen(g, d, t, opt, tt, fl)[0], n);
    case TSet(_) => FineOne(Gen(g, d, t, opt, tt, fl)[0], Gen(g, d, t, opt, tt, fl), n);
    case TAny => FinePlain(IAny, n);
    case TTrue => FineNone(n);
    case TFalse => FinePlain(IFail, n);
    case TRep(p) =>
      assert Gen(g, d, t, opt, tt, fl) == GenRep(g, d, p, opt, fl);
      var f := GetFirst(g, d, p, FullSet());
      if IsCharset(p) {
        FineRepCharset(p, n);
      } else if RepByTest(g, d, p, fl) {
        GenFine(g, d, p, false, TestOf(First(f.set_, false)), FullSet(), n);
        FineTestedLoop(f.set_, Gen(g, d, p, false, TestOf(First(f.set_, false)), FullSet()), n);
      } else {
        GenFine(g, d, p, false, NoTest, FullSet(), n);
        FineStackedLoop(f, Gen(g, d, p, false, NoTest, FullSet()), opt, n);
      }
    case TSeq(p1, p2) =>
      GenFine(g, d, p1, false, tt, SeqFollow(g, d, p1, p2, fl), n);
      GenFine(g, d, p2, opt, SeqTest(g, p1, tt), fl, n);
      FineAppend(Gen(g, d, p1, false, tt, SeqFollow(g, d, p1, p2, fl)), Gen(g, d, p2, opt, SeqTest(g, p1, tt), fl), n);
    case TChoice(p1, p2) => GenFineChoice(g, d, t, opt, tt, fl, n);
    case TNot(p) =>
      assert Gen(g, d, t, opt, tt, fl) == GenNot(g, d, p);
      GenFine(g, d, p, false, NoTest, FullSet(), n);
      FineTestedNot(GetFirst(g, d, p, FullSet()), n);
      FineStackedNot(GetFirst(g, d, p, FullSet()), Gen(g, d, p, false, NoTest, FullSet()), n);
    case TAnd(p) =>
      var c := Gen(g, d, p, false, tt, FullSet());
      GenFine(g, d, p, false, tt, FullSet(), n);
      FineStackedAnd(c, n);
      FineStepBack(FixedLen(g, {}, p), n);
      FineAppend(c, StepBack(FixedLen(g, {}, p)), n);
    case TBehind(m, p) =>
      GenFine(g, d, p, false, NoTest, FullSet(), n);
      FineStepBack(m, n);
      FineAppend(StepBack(m), Gen(g, d, p, false, NoTest, FullSet()), n);
    case TCapture(kind, p) =>
      var c := Gen(g, d, p, false, tt, fl);
      GenFine(g, d, p, false, tt, fl, n);
      FinePlain(IOpenCapture(kind), n);
      FinePlain(ICloseCapture, n);
      FineAppend([IOpenCapture(kind)], c, n);
      FineAppend([IOpenCapture(kind)] + c, [ICloseCapture], n);
      if ShortBody(g, p) {
        FinePlain(IFullCapture(kind, FixedLen(g, {}, p)), n);
        FineAppend(c, [IFullCapture(kind, FixedLen(g, {}, p))], n);
      }
    case TCall(m) => FineCall(m, n);
    case TGrammar(rules) => GenFineGrammar(g, d, t, opt, tt, fl, n);
  }

  lemma FineCall(m: nat, n: nat)
    requires m < n
    ensures Fine([IOpenCall(m), ISlot], n)
  {
    WholeOne(IOpenCall(m), [IOpenCall(m), ISlot]);
  }

  lemma {:induction false} GenFineChoice(g: Grammar, d: nat, t: Tree, opt: bool, tt: Test, fl: Charset, n: nat)
    requires t.TChoice? && Resolved(n, t)
    ensures Fine(Gen(g, d, t, opt, tt, fl), n)
    decreases t, 0, 0
  {
    hide Fine, GetFirst, Guard, TestCode, CheckAux, FixedLen, HasCaptures, Compact, CorrectCalls;
    var p1, p2 := t.p1, t.p2;
    assert Gen(g, d, t, opt, tt, fl) == GenChoice(g, d, p1, p2, opt, fl);
    var f := GetFirst(g, d, p1, FullSet());
    var c2 := Gen(g, d, p2, opt, NoTest, fl);
    GenFine(g, d, p2, opt, NoTest, fl, n);
    if ByTest(g, d, p1, p2, fl) {
      GenFine(g, d, p1, false, TestOf(First(f.set_, false)), fl, n);
      FineTestedChoice(f.set_, Gen(g, d, p1, false, TestOf(First(f.set_, false)), fl), c2, p2, n);
    } else if opt && p2.TTrue? {
      GenFine(g, d, p1, true, NoTest, FullSet(), n);
      FineJump(IPartialCommit(2), n);
      FineAppend([IPartialCommit(2), ISlot], Gen(g, d, p1, true, NoTest, FullSet()), n);
    } else {
      GenFine(g, d, p1, p2.TTrue?, TestOf(f), FullSet(), n);
      FineStackedChoice(f, Gen(g, d, p1, p2.TTrue?, TestOf(f), FullSet()), c2, n);
    }
  }

  lemma {:induction false} GenRulesFine(rules: Grammar, d: nat, t: Tree, k: nat)
    requires t == TGrammar(rules) && Resolved(0, t) && k <= |rules|
    ensures Fine(GenRules(rules, d, t, k), |rules|)
    decreases t, 0, k
  {
    hide Fine, Gen;
    if k == 0 {
      FineNone(|rules|);
    } else {
      var c := Gen(rules, d, rules[k - 1], false, NoTest, FullSet());
      GenRulesFine(rules, d, t, k - 1);
      GenFine(rules, d, rules[k - 1], false, NoTest, FullSet(), |rules|);
      FineAppend(GenRules(rules, d, t, k - 1), c, |rules|);
      FinePlain(IRet, |rules|);
      FineAppend(GenRules(rules, d, t, k - 1) + c, [IRet], |rules|);
    }
  }

  lemma {:induction false} GenFineGrammar(g: Grammar, d: nat, t: Tree, opt: bool, tt: Test, fl: Charset, n: nat)
    requires t.TGrammar? && Resolved(n, t)
    ensures Fine(Gen(g, d, t, opt, tt, fl), n)
    decreases t, 0, |t.rules| + 1
  {
    var rules := t.rules;
    var body, ps := GenRules(rules, d, t, |rules|), Positions(rules, d, t);
    GenRulesFine(rules, d, t, |rules|);
    CorrectCallsSound(body, ps, 0);
    CorrectCallsWhole(body, ps, 0, 0);
    var closed := CorrectCalls(body, ps, 0);
    forall k | 0 <= k < |closed| ensures !closed[k].IOpenCall? && (closed[k].IJmp? ==> k + closed[k].off >= 0) {
      assert Closed(body, closed, ps, k);
    }
    FineJump(ICall(4), n);
    FineJump(IJmp(|body| + 2), n);
    FineAppend([ICall(4), ISlot], [IJmp(|body| + 2), ISlot], n);
    FineAppend([ICall(4), ISlot] + [IJmp(|body| + 2), ISlot], closed, n);
    assert Gen(g, d, t, opt, tt, fl) == [ICall(4), ISlot] + [IJmp(|body| + 2), ISlot] + closed;
  }

  // ---- a placed grammar has its rules placed

  /** The rules of grammar t as a program of their own, for t's code at pc. */
  ghost function Inner(x: Program, pc: int, t: Tree): Program
    requires t.TGrammar?
  {
    var ps := Positions(t.rules, x.d, t);
    Program(x.code, x.s, t.rules, x.d, seq(|ps|, k requires 0 <= k < |ps| => pc + 4 + ps[k]))
  }

  lemma {:induction false} RuleSegment(rules: Grammar, d: nat, t: Tree, n: nat, k: nat)
    requires t == TGrammar(rules) && n < k <= |rules|
    ensures var start, c := |GenRules(rules, d, t, n)|, RuleCode(rules, d, rules[n]);
      var all := GenRules(rules, d, t, k);
      start + |c| <= |all| && forall j :: 0 <= j < |c| ==> all[start + j] == c[j]
    decreases k
  {
    hide Gen;
    if n + 1 < k {
      RuleSegment(rules, d, t, n, k - 1);
    } else {
      assert GenRules(rules, d, t, k) == GenRules(rules, d, t, n) + RuleCode(rules, d, rules[n]);
    }
  }

  lemma {:induction false} JumpsShift(code: Code, part: Code, base: int, q: int, n: nat)
    requires 0 <= base && base + |part| <= |code| && (forall k :: 0 <= k < |part| ==> code[base + k] == part[k])
    requires JumpsToReturn(part, q, n)
    ensures JumpsToReturn(code, base + q, n)
    decreases n
  {
    assert code[base + q] == part[q];
    if part[q].IJmp? {
      JumpsShift(code, part, base, q + part[q].off, n - 1);
      assert base + (q + part[q].off) == base + q + code[base + q].off;
    }
  }

  lemma GrammarCode(g: Grammar, d: nat, t: Tree, opt: bool, tt: Test, fl: Charset)
    requires t.TGrammar?
    ensures var body := GenRules(t.rules, d, t, |t.rules|);
      Gen(g, d, t, opt, tt, fl) ==
      [ICall(4), ISlot, IJmp(|body| + 2), ISlot] + CorrectCalls(body, Positions(t.rules, d, t), 0)
  {
  }

  lemma GrammarPlaced(x: Program, pc: int, t: Tree, opt: bool, tt: Test, fl: Charset)
    requires t.TGrammar? && WellFormed(x.g, x.d, t)
    requires Placed(x.code, pc, Gen(x.g, x.d, t, opt, tt, fl), x.env)
    ensures var n := |GenRules(t.rules, x.d, t, |t.rules|)|;
      && 0 <= pc && pc + 4 + n <= |x.code|
      && x.code[pc] == ICall(4) && x.code[pc + 2] == IJmp(n + 2)
      && |Gen(x.g, x.d, t, opt, tt, fl)| == n + 4
    ensures RulesPlaced(Inner(x, pc, t)) && Inner(x, pc, t).env[0] == pc + 4
  {
    HeadPlaced(x, pc, t, opt, tt, fl);
    hide Gen, CorrectCalls, GenRules, Placed;
    BodyPlaced(x, pc, t);
    InnerPlaced(x, pc, t);
  }

  lemma HeadPlaced(x: Program, pc: int, t: Tree, opt: bool, tt: Test, fl: Charset)
    requires t.TGrammar? && Placed(x.code, pc, Gen(x.g, x.d, t, opt, tt, fl), x.env)
    ensures var body := GenRules(t.rules, x.d, t, |t.rules|);
      && 0 <= pc && pc + 4 <= |x.code| && x.code[pc] == ICall(4) && x.code[pc + 2] == IJmp(|body| + 2)
      && |Gen(x.g, x.d, t, opt, tt, fl)| == |body| + 4
      && Placed(x.code, pc + 4, CorrectCalls(body, Positions(t.rules, x.d, t), 0), x.env)
  {
    hide Gen, CorrectCalls, GenRules;
    var body := GenRules(t.rules, x.d, t, |t.rules|);
    var head := [ICall(4), ISlot, IJmp(|body| + 2), ISlot];
    GrammarCode(x.g, x.d, t, opt, tt, fl);
    PlacedSplit(x.code, pc, head, CorrectCalls(body, Positions(t.rules, x.d, t), 0), x.env);
    assert Realises(x.code, pc + 0, head[0], x.env);
    assert Realises(x.code, pc + 2, head[2], x.env);
    assert Realises(x.code, pc + 3, head[3], x.env);
  }

  /** With the body of a grammar placed, each of its rules is. */
  lemma InnerPlaced(x: Program, pc: int, t: Tree)
    requires t.TGrammar? && WellFormed(x.g, x.d, t)
    requires Placed(x.code, pc + 4, GenRules(t.rules, x.d, t, |t.rules|), Inner(x, pc, t).env)
    ensures RulesPlaced(Inner(x, pc, t)) && Inner(x, pc, t).env[0] == pc + 4
  {
    hide Gen, Realises;
    var rules, y := t.rules, Inner(x, pc, t);
    var body, ps := GenRules(rules, x.d, t, |rules|), Positions(rules, x.d, t);
    assert GenRules(rules, x.d, t, 0) == [];
    hide GenRules;
    forall n | 0 <= n < |rules| ensures Placed(y.code, y.env[n], RuleCode(rules, x.d, rules[n]), y.env) {
      RuleSegment(rules, x.d, t, n, |rules|);
      var c := RuleCode(rules, x.d, rules[n]);
      forall j | 0 <= j < |c| ensures Realises(y.code, y.env[n] + j, c[j], y.env) {
        assert Realises(x.code, pc + 4 + (ps[n] + j), body[ps[n] + j], y.env);
      }
    }
  }

  lemma BodyPlaced(x: Program, pc: int, t: Tree)
    requires t.TGrammar? && WellFormed(x.g, x.d, t) && 0 <= pc
    requires var body := GenRules(t.rules, x.d, t, |t.rules|);
      Placed(x.code, pc + 4, CorrectCalls(body, Positions(t.rules, x.d, t), 0), x.env)
    ensures var body := GenRules(t.rules, x.d, t, |t.rules|);
      Placed(x.code, pc + 4, body, Inner(x, pc, t).env) && pc + 4 + |body| <= |x.code|
  {
    hide Gen, GenRules, CorrectCalls;
    var rules := t.rules;
    var body, ps := GenRules(rules, x.d, t, |rules|), Positions(rules, x.d, t);
    var closed := CorrectCalls(body, ps, 0);
    var env := Inner(x, pc, t).env;
    GenRulesFine(rules, x.d, t, |rules|);
    CorrectCallsSound(body, ps, 0);
    RuleSegment(rules, x.d, t, 0, |rules|);
    forall k | 0 <= k < |closed| ensures pc + 4 + k < |x.code| && x.code[pc + 4 + k] == closed[k] {
      assert Closed(body, closed, ps, k);
      assert Realises(x.code, pc + 4 + k, closed[k], x.env);
    }
    assert |RuleCode(rules, x.d, rules[0])| >= 1;
    assert Realises(x.code, pc + 4 + (|closed| - 1), closed[|closed| - 1], x.env);
    forall k | 0 <= k < |body| ensures Realises(x.code, pc + 4 + k, body[k], env) {
      assert Closed(body, closed, ps, k);
      assert x.code[pc + 4 + k] == closed[k];
      if body[k].IOpenCall? {
        assert env[body[k].rule] == pc + 4 + ps[body[k].rule];
        if closed[k].IJmp? {
          var n: nat :| JumpsToReturn(closed, k + 2, n);
          JumpsShift(x.code, closed, pc + 4, k + 2, n);
          assert pc + 4 + (k + 2) == pc + 4 + k + 2;
        }
      }
    }
  }
}
