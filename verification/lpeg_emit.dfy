/**
 The code generator as the source writes it: one growing code array whose offsets are
 patched in place once targets are known (3rd/lpeg/lpcode.c:405-1046), and the opcode
 interpreter as one loop (3rd/lpeg/lpvm.c:201-409).
 */
module Emit {
  import opened Common
  import opened Charsets
  import opened Analysis
  import opened Semantics
  import opened Machine
  import opened CodeGen
  import opened Placement
  import opened Peephole
  import opened Correctness
  import opened Lpeg

  const NO_INST := -1

  /** What codechar and codecharset see of the test at slot tt. */
  function TestAt(code: Code, tt: int): Test
    requires tt < |code|
  {
    if tt < 0 then NoTest
    else match code[tt]
      case ITestChar(c, _) => TestChar(c)
      case ITestSet(cs, _) => TestSet(cs)
      case _ => NoTest
  }

  function WithOffset(c: Instr, off: int): Instr
    requires HasOffset(c)
  {
    if c.IJmp? then IJmp(off) else Relabel(c, off)
  }

  lemma PatchedTest(cs: Charset, off: int)
    ensures |TestCode(cs, 0)| > 0 && HasOffset(TestCode(cs, 0)[0])
    ensures TestCode(cs, off) == TestCode(cs, 0)[0 := WithOffset(TestCode(cs, 0)[0], off)]
  {
  }

  lemma PatchFirst(a: Code, t: Code, patched: Code, b: Code)
    requires |t| > 0 && |patched| > 0 && patched == t[0 := patched[0]]
    ensures (a + t + b)[|a|] == t[0] && (a + t + b)[|a| := patched[0]] == a + patched + b
  {
  }

  /** Patching the offset of a test gives the test with that offset. */
  lemma PatchTest(a: Code, cs: Charset, off: int, b: Code)
    ensures var c := a + TestCode(cs, 0) + b;
      |TestCode(cs, 0)| > 0 && HasOffset(c[|a|]) &&
      c[|a| := WithOffset(c[|a|], off)] == a + TestCode(cs, off) + b
  {
    PatchedTest(cs, off);
    hide TestCode;
    PatchFirst(a, TestCode(cs, 0), TestCode(cs, off), b);
  }

  lemma PatchJump(a: Code, i: Instr, off: int, b: Code)
    requires HasOffset(i)
    ensures var c := a + [i, ISlot] + b;
      c[|a|] == i && c[|a| := WithOffset(i, off)] == a + [WithOffset(i, off), ISlot] + b
  {
  }

  class CompileState {
    var code: Code

    constructor ()
      ensures code == []
    {
      code := [];
    }

    method AddInstruction(i: Instr) returns (at: nat)
      modifies this
      ensures at == |old(code)| && code == old(code) + [i]
    {
      at := |code|;
      code := code + [i];
    }

    method AddOffsetInst(i: Instr) returns (at: nat)
      modifies this
      ensures at == |old(code)| && code == old(code) + [i, ISlot]
    {
      at := AddInstruction(i);
      var _ := AddInstruction(ISlot);
    }

    /** addcharset: the slots of a set follow its instruction. */
    method AddCharset(n: nat)
      modifies this
      ensures code == old(code) + Slots(n)
    {
      var k := 0;
      while k < n
        invariant k <= n && code == old(code) + Slots(k)
      {
        assert Slots(k) + [ISlot] == Slots(k + 1);
        var _ := AddInstruction(ISlot);
        k := k + 1;
      }
    }

    /** jumptothere: nothing to patch for NO_INST. */
    method JumpToThere(inst: int, target: int)
      requires 0 <= inst ==> inst < |code| && HasOffset(code[inst])
      modifies this
      ensures code == if inst < 0 then old(code)
                      else old(code)[inst := WithOffset(old(code)[inst], target - inst)]
    {
      if inst >= 0 {
        code := code[inst := WithOffset(code[inst], target - inst)];
      }
    }

    method JumpToHere(inst: int)
      requires 0 <= inst ==> inst < |code| && HasOffset(code[inst])
      modifies this
      ensures code == if inst < 0 then old(code)
                      else old(code)[inst := WithOffset(old(code)[inst], |old(code)| - inst)]
    {
      JumpToThere(inst, |code|);
    }

    method CodeTestSet(cs: Charset, e: bool) returns (test: int)
      modifies this
      ensures code == old(code) + (if e then [] else TestCode(cs, 0))
      ensures test == if e then NO_INST else |old(code)|
      ensures test < |code| && TestAt(code, test) == TestOf(First(cs, e))
    {
      hide Compact;
      if e {
        return NO_INST;
      }
      match KindOf(cs) {
        case KFail => test := AddOffsetInst(IJmp(0));
        case KAny => test := AddOffsetInst(ITestAny(0));
        case KChar(c) => test := AddOffsetInst(ITestChar(c, 0));
        case KSet =>
          test := AddOffsetInst(ITestSet(Compact(cs), 0));
          AddCharset(Compact(cs).slots);
      }
    }

    method CodeChar(c: Byte, tt: int)
      requires tt < |code|
      modifies this
      ensures code == old(code) + (if TestAt(old(code), tt) == TestChar(c) then [IAny] else [IChar(c)])
    {
      if tt >= 0 && code[tt].ITestChar? && code[tt].c == c {
        var _ := AddInstruction(IAny);
      } else {
        var _ := AddInstruction(IChar(c));
      }
    }

    method CodeCharset(cs: Charset, tt: int)
      requires tt < |code|
      modifies this
      ensures code == old(code) + (if TestAt(old(code), tt) == TestSet(Compact(cs)) then [IAny]
                                   else [ISet(Compact(cs))] + Slots(Compact(cs).slots))
    {
      if tt >= 0 && code[tt].ITestSet? && code[tt].cs == Compact(cs) {
        var _ := AddInstruction(IAny);
      } else {
        var _ := AddInstruction(ISet(Compact(cs)));
        AddCharset(Compact(cs).slots);
      }
    }

    /** closeloop: jump back to test, which jumps here. */
    method CloseLoop(test: nat)
      requires test < |code| && HasOffset(code[test])
      modifies this
      ensures var c := old(code);
        code == c[test := WithOffset(c[test], |c| + 2 - test)] + [IJmp(test - |c|), ISlot]
    {
      var jmp := AddOffsetInst(IJmp(0));
      JumpToHere(test);
      JumpToThere(jmp, test);
    }

    method CodeRepCharset(p: Tree)
      requires IsCharset(p)
      modifies this
      ensures code == old(code) + RepCharset(p)
    {
      match p {
        case TFalse =>
        case TAny =>
          var test := AddOffsetInst(ITestAny(0));
          var _ := AddInstruction(IAny);
          CloseLoop(test);
        case TChar(c) =>
          var test := AddOffsetInst(ITestChar(c, 0));
          var _ := AddInstruction(IAny);
          CloseLoop(test);
        case TSet(cs) =>
          var _ := AddInstruction(ISpan(Compact(cs)));
          AddCharset(Compact(cs).slots);
      }
    }

    method CodeChoice(g: Grammar, d: nat, p1: Tree, p2: Tree, opt: bool, fl: Charset)
      requires Resolved(|g|, p1) && Resolved(|g|, p2)
      modifies this
      ensures code == old(code) + GenChoice(g, d, p1, p2, opt, fl)
      decreases TChoice(p1, p2), 0, 1
    {
      hide Gen, GetFirst, TestedChoice, StackedChoice;
      var f := GetFirst(g, d, p1, FullSet());
      if ByTest(g, d, p1, p2, fl) {
        CodeChoiceTested(g, d, p1, p2, opt, fl, f.set_);
      } else if opt && p2.TTrue? {
        CodeHere(IPartialCommit(0));
        CodeGen(g, d, p1, true, NO_INST, FullSet());
        Regroup(old(code), [IPartialCommit(2), ISlot], Gen(g, d, p1, true, NoTest, FullSet()), []);
      } else {
        CodeChoiceStacked(g, d, p1, p2, opt, fl, f);
      }
    }

    /** An offset instruction that jumps to the next one. */
    method CodeHere(i: Instr)
      requires HasOffset(i)
      modifies this
      ensures code == old(code) + [WithOffset(i, 2), ISlot]
    {
      var at := AddOffsetInst(i);
      JumpToHere(at);
    }

    /** A jump or choice left open at `at` is patched to jump here. */
    method Land(at: nat, ghost front: Code, ghost i: Instr, ghost rest: Code)
      requires HasOffset(i) && code == front + [i, ISlot] + rest && at == |front|
      modifies this
      ensures code == front + [WithOffset(i, |rest| + 2), ISlot] + rest
    {
      PatchJump(front, i, |rest| + 2, rest);
      JumpToHere(at);
    }

    /** A test left open at `test`, if there is one, is patched to jump here. */
    method LandTest(test: int, ghost front: Code, ghost f: First, ghost rest: Code)
      requires test == if f.empty then NO_INST else |front|
      requires code == front + Guard(f, 0) + rest
      modifies this
      ensures code == front + Guard(f, GuardSize(f) + |rest|) + rest
    {
      hide TestCode;
      PatchGuard(front, f, GuardSize(f) + |rest|, rest);
      JumpToHere(test);
    }

    method CodeChoiceTested(g: Grammar, d: nat, p1: Tree, p2: Tree, opt: bool, fl: Charset, cs: Charset)
      requires Resolved(|g|, p1) && Resolved(|g|, p2)
      modifies this
      ensures code == old(code) +
        TestedChoice(cs, Gen(g, d, p1, false, TestOf(First(cs, false)), fl), Gen(g, d, p2, opt, NoTest, fl), p2)
      decreases TChoice(p1, p2), 0, 0
    {
      hide Gen, TestCode, KindOf, Compact, TestOf, TestAt;
      ghost var base, f := code, First(cs, false);
      ghost var c1, c2 := Gen(g, d, p1, false, TestOf(f), fl), Gen(g, d, p2, opt, NoTest, fl);
      var test := CodeTestSet(cs, false);
      CodeGen(g, d, p1, false, test, fl);
      var jmp := NO_INST;
      if !p2.TTrue? {
        jmp := AddOffsetInst(IJmp(0));
      }
      ghost var j: Code := if p2.TTrue? then [] else [IJmp(0), ISlot];
      Regroup(base + Guard(f, 0), c1, j, []);
      LandTest(test, base, f, c1 + j);
      ghost var guard := Guard(f, TestSize(cs) + |c1| + |j|);
      Regroup(base + guard, c1, j, []);
      NoTestAt(code);
      CodeGen(g, d, p2, opt, NO_INST, fl);
      ghost var front := base + guard + c1;
      if !p2.TTrue? {
        Land(jmp, front, IJmp(0), c2);
      } else {
        Regroup(front, c2, [], []);
      }
      assert code == front + JumpOver(c2, p2) + c2;
      Regroup(base, guard, c1, JumpOver(c2, p2));
      Regroup(base, guard + c1, JumpOver(c2, p2), c2);
    }

    /** The alternative, p1, and a commit whose offset is still open. */
    method CodeChoiceFront(g: Grammar, d: nat, p1: Tree, inOpt: bool, f: First) returns (pcommit: nat)
      requires Resolved(|g|, p1)
      modifies this
      ensures var c1 := Gen(g, d, p1, inOpt, TestOf(f), FullSet());
        code == old(code) + (Guard(f, GuardSize(f) + |c1| + 4) + [IChoice(|c1| + 4), ISlot] + c1) + [ICommit(0), ISlot]
      ensures pcommit + 2 == |code|
      decreases p1, 2, 0
    {
      hide Gen, Guard, TestCode, KindOf, Compact, TestOf, TestAt;
      ghost var base := code;
      ghost var c1 := Gen(g, d, p1, inOpt, TestOf(f), FullSet());
      var test := CodeTestSet(f.set_, f.empty);
      GuardIsTest(f);
      TestAtAppend(code, [IChoice(0), ISlot], test);
      var pchoice := AddOffsetInst(IChoice(0));
      CodeGen(g, d, p1, inOpt, test, FullSet());
      pcommit := AddOffsetInst(ICommit(0));
      ghost var choice, commit := [IChoice(|c1| + 4), ISlot], [ICommit(0), ISlot];
      Regroup(base + Guard(f, 0) + [IChoice(0), ISlot], c1, commit, []);
      Land(pchoice, base + Guard(f, 0), IChoice(0), c1 + commit);
      Regroup(base + Guard(f, 0), choice, c1 + commit, []);
      LandTest(test, base, f, choice + (c1 + commit));
      FrontDone(base, Guard(f, GuardSize(f) + |c1| + 4), choice, c1, commit);
    }

    method CodeChoiceStacked(g: Grammar, d: nat, p1: Tree, p2: Tree, opt: bool, fl: Charset, f: First)
      requires Resolved(|g|, p1) && Resolved(|g|, p2)
      modifies this
      ensures code == old(code) +
        StackedChoice(f, Gen(g, d, p1, p2.TTrue?, TestOf(f), FullSet()), Gen(g, d, p2, opt, NoTest, fl))
      decreases TChoice(p1, p2), 0, 0
    {
      hide Gen, Guard, TestCode, KindOf, Compact, TestOf, TestAt;
      ghost var base := code;
      ghost var c1, c2 := Gen(g, d, p1, p2.TTrue?, TestOf(f), FullSet()), Gen(g, d, p2, opt, NoTest, fl);
      ghost var front := Guard(f, GuardSize(f) + |c1| + 4) + [IChoice(|c1| + 4), ISlot] + c1;
      var pcommit := CodeChoiceFront(g, d, p1, p2.TTrue?, f);
      NoTestAt(code);
      CodeGen(g, d, p2, opt, NO_INST, fl);
      Land(pcommit, base + front, ICommit(0), c2);
      Regroup(base, front, [ICommit(|c2| + 2), ISlot], c2);
    }

    method CodeRep(g: Grammar, d: nat, p: Tree, opt: bool, fl: Charset)
      requires Resolved(|g|, p)
      modifies this
      ensures code == old(code) + GenRep(g, d, p, opt, fl)
      decreases TRep(p), 0, 3
    {
      hide Gen, GetFirst, TestedLoop, StackedLoop;
      if IsCharset(p) {
        CodeRepCharset(p);
      } else {
        var f := GetFirst(g, d, p, FullSet());
        if RepByTest(g, d, p, fl) {
          CodeRepTested(g, d, p, f.set_);
        } else {
          CodeRepStacked(g, d, p, opt, f);
        }
      }
    }

    method CodeRepTested(g: Grammar, d: nat, p: Tree, cs: Charset)
      requires Resolved(|g|, p)
      modifies this
      ensures code == old(code) + TestedLoop(cs, Gen(g, d, p, false, TestOf(First(cs, false)), FullSet()))
      decreases TRep(p), 0, 0
    {
      hide Gen, TestCode, KindOf, Compact, TestOf, TestAt;
      ghost var base := code;
      ghost var c := Gen(g, d, p, false, TestOf(First(cs, false)), FullSet());
      var test := CodeTestSet(cs, false);
      CodeGen(g, d, p, false, test, FullSet());
      PatchTest(base, cs, TestSize(cs) + |c| + 2, c);
      CloseLoop(test);
      Regroup(base, TestCode(cs, TestSize(cs) + |c| + 2), c, [IJmp(-(TestSize(cs) + |c|)), ISlot]);
    }

    /** L1: p; partialcommit L1 */
    method CodeLoopBody(g: Grammar, d: nat, p: Tree)
      requires Resolved(|g|, p)
      modifies this
      ensures var c := Gen(g, d, p, false, NoTest, FullSet());
        code == old(code) + (c + [IPartialCommit(-|c|), ISlot])
      decreases TRep(p), 0, 0
    {
      hide Gen;
      ghost var c := Gen(g, d, p, false, NoTest, FullSet());
      var l2 := |code|;
      NoTestAt(code);
      CodeGen(g, d, p, false, NO_INST, FullSet());
      var commit := AddOffsetInst(IPartialCommit(0));
      JumpToThere(commit, l2);
      assert code == old(code) + c + [IPartialCommit(-|c|), ISlot];
      Regroup(old(code), c, [IPartialCommit(-|c|), ISlot], []);
    }

    /** The alternative of a loop, or the move of an enclosing one, and the loop. */
    method CodeLoop(g: Grammar, d: nat, p: Tree, opt: bool)
      requires Resolved(|g|, p)
      modifies this
      ensures var c := Gen(g, d, p, false, NoTest, FullSet());
        code == old(code) + ([if opt then IPartialCommit(2) else IChoice(|c| + 4), ISlot] + (c + [IPartialCommit(-|c|), ISlot]))
      decreases TRep(p), 0, 1
    {
      hide Gen;
      ghost var base, c := code, Gen(g, d, p, false, NoTest, FullSet());
      ghost var back := [IPartialCommit(-|c|), ISlot];
      if opt {
        CodeHere(IPartialCommit(0));
        CodeLoopBody(g, d, p);
        Regroup(base, [IPartialCommit(2), ISlot], c + back, []);
      } else {
        var pchoice := AddOffsetInst(IChoice(0));
        CodeLoopBody(g, d, p);
        Land(pchoice, base, IChoice(0), c + back);
        Regroup(base, [IChoice(|c| + 4), ISlot], c + back, []);
      }
    }

    method CodeRepStacked(g: Grammar, d: nat, p: Tree, opt: bool, f: First)
      requires Resolved(|g|, p)
      modifies this
      ensures code == old(code) + StackedLoop(f, Gen(g, d, p, false, NoTest, FullSet()), opt)
      decreases TRep(p), 0, 2
    {
      hide Gen, Guard, TestCode, KindOf, Compact, TestOf, TestAt;
      ghost var base := code;
      ghost var c := Gen(g, d, p, false, NoTest, FullSet());
      ghost var choice := [if opt then IPartialCommit(2) else IChoice(|c| + 4), ISlot];
      var test := CodeTestSet(f.set_, f.empty);
      GuardIsTest(f);
      CodeLoop(g, d, p, opt);
      LandTest(test, base, f, choice + (c + [IPartialCommit(-|c|), ISlot]));
      LoopDone(base, Guard(f, GuardSize(f) + |c| + 4), choice, c, [IPartialCommit(-|c|), ISlot]);
    }

    /** The alternative of a not-predicate and its pattern. */
    method CodeNotBody(g: Grammar, d: nat, p: Tree)
      requires Resolved(|g|, p)
      modifies this
      ensures var c := Gen(g, d, p, false, NoTest, FullSet());
        code == old(code) + ([IChoice(|c| + 3), ISlot] + (c + [IFailTwice]))
      decreases p, 2, 0
    {
      hide Gen;
      ghost var base, c := code, Gen(g, d, p, false, NoTest, FullSet());
      var pchoice := AddOffsetInst(IChoice(0));
      NoTestAt(code);
      CodeGen(g, d, p, false, NO_INST, FullSet());
      var _ := AddInstruction(IFailTwice);
      Regroup(base + [IChoice(0), ISlot], c, [IFailTwice], []);
      Land(pchoice, base, IChoice(0), c + [IFailTwice]);
      Regroup(base, [IChoice(|c| + 3), ISlot], c + [IFailTwice], []);
    }

    method CodeNot(g: Grammar, d: nat, p: Tree)
      requires Resolved(|g|, p)
      modifies this
      ensures code == old(code) + GenNot(g, d, p)
      decreases TNot(p), 0, 0
    {
      hide Gen, Guard, TestCode, KindOf, Compact, TestOf, TestAt, GetFirst;
      ghost var base := code;
      var f := GetFirst(g, d, p, FullSet());
      var test := CodeTestSet(f.set_, f.empty);
      GuardIsTest(f);
      if HeadFail(g, d, p) {
        var _ := AddInstruction(IFail);
        LandTest(test, base, f, [IFail]);
        Regroup(base, Guard(f, GuardSize(f) + 1), [IFail], []);
      } else {
        ghost var c := Gen(g, d, p, false, NoTest, FullSet());
        ghost var choice := [IChoice(|c| + 3), ISlot];
        CodeNotBody(g, d, p);
        LandTest(test, base, f, choice + (c + [IFailTwice]));
        LoopDone(base, Guard(f, GuardSize(f) + |c| + 3), choice, c, [IFailTwice]);
      }
    }

    /** The alternative of an and-predicate, its pattern, and a commit whose offset is still open. */
    method CodeAndFront(g: Grammar, d: nat, p: Tree, tt: int) returns (pcommit: nat)
      requires tt < |code| && Resolved(|g|, p)
      modifies this
      ensures var c := Gen(g, d, p, false, TestAt(old(code), tt), FullSet());
        code == old(code) + ([IChoice(|c| + 4), ISlot] + c) + [IBackCommit(0), ISlot]
      ensures pcommit + 2 == |code|
      decreases p, 2, 0
    {
      hide Gen;
      ghost var base := code;
      ghost var c := Gen(g, d, p, false, TestAt(code, tt), FullSet());
      ghost var choice, commit := [IChoice(|c| + 4), ISlot], [IBackCommit(0), ISlot];
      TestAtAppend(code, [IChoice(0), ISlot], tt);
      hide TestAt;
      var pchoice := AddOffsetInst(IChoice(0));
      CodeGen(g, d, p, false, tt, FullSet());
      pcommit := AddOffsetInst(IBackCommit(0));
      Regroup(base + [IChoice(0), ISlot], c, commit, []);
      Land(pchoice, base, IChoice(0), c + commit);
      FrontDone(base, choice, c, [], commit);
    }

    method CodeAnd(g: Grammar, d: nat, p: Tree, tt: int)
      requires tt < |code|
      requires Resolved(|g|, p)
      modifies this
      ensures var c := Gen(g, d, p, false, TestAt(old(code), tt), FullSet());
        code == old(code) + if AndByLength(g, p) then c + StepBack(FixedLen(g, {}, p)) else StackedAnd(c)
      decreases TAnd(p), 0, 0
    {
      hide Gen, FixedLen, HasCaptures, TestAt;
      ghost var base := code;
      ghost var c := Gen(g, d, p, false, TestAt(code, tt), FullSet());
      if AndByLength(g, p) {
        var n := FixedLen(g, {}, p);
        CodeGen(g, d, p, false, tt, FullSet());
        if n > 0 {
          var _ := AddInstruction(IBehind(n));
        }
        Regroup(base, c, StepBack(n), []);
      } else {
        ghost var front := [IChoice(|c| + 4), ISlot] + c;
        var pcommit := CodeAndFront(g, d, p, tt);
        var _ := AddInstruction(IFail);
        Land(pcommit, base + front, IBackCommit(0), [IFail]);
        Regroup(base, front, [IBackCommit(3), ISlot], [IFail]);
      }
    }

    method CodeCapture(g: Grammar, d: nat, kind: nat, p: Tree, tt: int, fl: Charset)
      requires tt < |code|
      requires Resolved(|g|, p)
      modifies this
      ensures var c := Gen(g, d, p, false, TestAt(old(code), tt), fl);
        code == old(code) + if ShortBody(g, p) then c + [IFullCapture(kind, FixedLen(g, {}, p))]
                            else [IOpenCapture(kind)] + c + [ICloseCapture]
      decreases TCapture(kind, p), 0, 0
    {
      hide Gen, FixedLen, HasCaptures;
      ghost var base := code;
      ghost var c := Gen(g, d, p, false, TestAt(code, tt), fl);
      if ShortBody(g, p) {
        CodeGen(g, d, p, false, tt, fl);
        var _ := AddInstruction(IFullCapture(kind, FixedLen(g, {}, p)));
        Regroup(base, c, [IFullCapture(kind, FixedLen(g, {}, p))], []);
      } else {
        var _ := AddInstruction(IOpenCapture(kind));
        CodeGen(g, d, p, false, tt, fl);
        var _ := AddInstruction(ICloseCapture);
        Regroup(base, [IOpenCapture(kind)], c, [ICloseCapture]);
      }
    }

    method CodeBehind(g: Grammar, d: nat, n: nat, p: Tree)
      requires Resolved(|g|, p)
      modifies this
      ensures code == old(code) + (StepBack(n) + Gen(g, d, p, false, NoTest, FullSet()))
      decreases TBehind(n, p), 0, 0
    {
      hide Gen;
      if n > 0 {
        var _ := AddInstruction(IBehind(n));
      }
      NoTestAt(code);
      CodeGen(g, d, p, false, NO_INST, FullSet());
      Regroup(old(code), StepBack(n), Gen(g, d, p, false, NoTest, FullSet()), []);
    }

    method CodeSeq(g: Grammar, d: nat, p1: Tree, p2: Tree, opt: bool, tt: int, fl: Charset)
      requires tt < |code|
      requires Resolved(|g|, p1) && Resolved(|g|, p2)
      modifies this
      ensures var test := TestAt(old(code), tt);
        code == old(code) + (Gen(g, d, p1, false, test, SeqFollow(g, d, p1, p2, fl)) +
                             Gen(g, d, p2, opt, SeqTest(g, p1, test), fl))
      decreases TSeq(p1, p2), 0, 0
    {
      hide Gen, GetFirst, FixedLen;
      ghost var test := TestAt(code, tt);
      ghost var c1 := Gen(g, d, p1, false, test, SeqFollow(g, d, p1, p2, fl));
      CodeGen(g, d, p1, false, tt, SeqFollow(g, d, p1, p2, fl));
      TestAtAppend(old(code), c1, tt);
      var t2 := if FixedLen(g, {}, p1) != 0 then NO_INST else tt;
      CodeGen(g, d, p2, opt, t2, fl);
      Regroup(old(code), c1, Gen(g, d, p2, opt, SeqTest(g, p1, test), fl), []);
    }

    /** finaltarget: follow jumps, but no more than bound of them. */
    method FindTarget(i: int, bound: nat) returns (r: int)
      ensures r == FinalTarget(code, i, bound)
    {
      var at, left := i, bound;
      while 0 <= at < |code| && code[at].IJmp? && left > 0
        invariant FinalTarget(code, at, left) == FinalTarget(code, i, bound)
        decreases left
      {
        at, left := at + code[at].off, left - 1;
      }
      r := if 0 <= at < |code| && !code[at].IJmp? then at else -1;
    }

    /** An open call becomes a call, or a jump when a return follows. */
    method CloseCallAt(i: nat, positions: seq<nat>, from: nat)
      requires from <= i < |code| && code[i].IOpenCall? && code[i].rule < |positions| && NoneBefore(code[from..])
      modifies this
      ensures var part, k, off := old(code)[from..], i - from, positions[old(code)[i].rule] - (i - from);
        code == old(code)[i := if TailCall(part, k) then IJmp(off) else ICall(off)]
    {
      var target := FindTarget(i + 2, |code| - from);
      TargetWithin(code, from, i + 2 - from, |code| - from);
      var off := positions[code[i].rule] - (i - from);
      if target >= 0 && code[target].IRet? {
        code := code[i := IJmp(off)];
      } else {
        code := code[i := ICall(off)];
      }
    }

    /** One turn of correctcalls. */
    method CloseNext(i: nat, positions: seq<nat>, from: nat) returns (next: nat)
      requires from <= i < |code| && Closing(code[from..], |positions|, i - from)
      modifies this
      ensures i < next <= |code| == |old(code)| && code[..from] == old(code)[..from]
      ensures Closing(code[from..], |positions|, next - from)
      ensures CorrectCalls(code[from..], positions, next - from) == CorrectCalls(old(code)[from..], positions, i - from)
    {
      hide TailCall, CorrectCalls, Closing, Whole, Fine, NoneBefore;
      ghost var was := code;
      ClosingTurn(code[from..], positions, i - from);
      if code[i].IOpenCall? {
        CloseCallAt(i, positions, from);
        EndChanged(was, from, i, code[i]);
        next := i + 2;
      } else {
        next := i + Size(code[i]);
      }
    }

    /** correctcalls, over the slots from `from` to the end of the code. */
    method CloseCalls(positions: seq<nat>, from: nat)
      requires from <= |code| && Fine(code[from..], |positions|)
      modifies this
      ensures code == old(code)[..from] + CorrectCalls(old(code)[from..], positions, 0)
    {
      ghost var before, first := code[..from], code[from..];
      assert Closing(first, |positions|, 0);
      hide TailCall, CorrectCalls, Closing, Whole, Fine, NoneBefore;
      var i, to := from, |code|;
      while i < to
        invariant from <= i <= to == |code| && code[..from] == before
        invariant Closing(code[from..], |positions|, i - from)
        invariant CorrectCalls(code[from..], positions, i - from) == CorrectCalls(first, positions, 0)
      {
        i := CloseNext(i, positions, from);
      }
      ClosingEnd(code[from..], positions, i - from);
      assert code == code[..from] + code[from..];
    }

    /** One rule: its code and a return. */
    method CodeRule(rules: Grammar, d: nat, rule: Tree)
      requires Resolved(|rules|, rule)
      modifies this
      ensures code == old(code) + RuleCode(rules, d, rule)
      decreases rule, 2, 0
    {
      hide Gen;
      NoTestAt(code);
      CodeGen(rules, d, rule, false, NO_INST, FullSet());
      var _ := AddInstruction(IRet);
      Regroup(old(code), Gen(rules, d, rule, false, NoTest, FullSet()), [IRet], []);
    }

    /** The rules of a grammar one after the other, with their positions. */
    method CodeRules(rules: Grammar, d: nat, ghost t: Tree) returns (positions: seq<nat>)
      requires t == TGrammar(rules) && Resolved(0, t)
      modifies this
      ensures code == old(code) + GenRules(rules, d, t, |rules|)
      ensures positions == Positions(rules, d, t)
      decreases t, 0, 0
    {
      hide Gen, GenRules, RuleCode;
      ghost var front := code;
      var start := |code|;
      positions := [];
      var n := 0;
      assert GenRules(rules, d, t, 0) == [] by { NoRules(rules, d, t); }
      while n < |rules|
        invariant n <= |rules| && |positions| == n
        invariant code == front + GenRules(rules, d, t, n)
        invariant forall k :: 0 <= k < n ==> positions[k] == |GenRules(rules, d, t, k)|
      {
        positions := positions + [|code| - start];
        CodeRule(rules, d, rules[n]);
        RulesSnoc(rules, d, t, n);
        Regroup(front, GenRules(rules, d, t, n), RuleCode(rules, d, rules[n]), []);
        n := n + 1;
      }
      assert positions == Positions(rules, d, t);
    }

    /** codegrammar: call L1; jmp L2; L1: rule 1; ret; rule 2; ret; ...; L2: */
    method CodeGrammar(g: Grammar, d: nat, t: Tree)
      requires t.TGrammar? && Resolved(|g|, t)
      modifies this
      ensures var body := GenRules(t.rules, d, t, |t.rules|);
        code == old(code) + ([ICall(4), ISlot, IJmp(|body| + 2), ISlot] + CorrectCalls(body, Positions(t.rules, d, t), 0))
      decreases t, 0, 1
    {
      hide Gen, GenRules, CorrectCalls;
      ghost var base := code;
      var rules := t.rules;
      ghost var body := GenRules(rules, d, t, |rules|);
      var firstCall := AddOffsetInst(ICall(0));
      var jumpToEnd := AddOffsetInst(IJmp(0));
      var start := |code|;
      Land(firstCall, base, ICall(0), [IJmp(0), ISlot]);
      var positions := CodeRules(rules, d, t);
      Land(jumpToEnd, base + [ICall(4), ISlot], IJmp(0), body);
      ghost var front := base + [ICall(4), ISlot] + [IJmp(|body| + 2), ISlot];
      assert code == front + body && |front| == start;
      assert code[start..] == body && code[..start] == front;
      GenRulesFine(rules, d, t, |rules|);
      CloseCalls(positions, start);
      Regroup(base, [ICall(4), ISlot], [IJmp(|body| + 2), ISlot], CorrectCalls(body, positions, 0));
      assert [ICall(4), ISlot] + [IJmp(|body| + 2), ISlot] == [ICall(4), ISlot, IJmp(|body| + 2), ISlot];
    }

    /** codegen: the code array grows by exactly the code of t. */
    method CodeGen(g: Grammar, d: nat, t: Tree, opt: bool, tt: int, fl: Charset)
      requires tt < |code|
      requires Resolved(|g|, t)
      modifies this
      ensures code == old(code) + Gen(g, d, t, opt, TestAt(old(code), tt), fl)
      decreases t, 1, 0
    {
      match t {
        case TChar(c) => CodeChar(c, tt);
        case TSet(cs) => CodeCharset(cs, tt);
        case TAny => var _ := AddInstruction(IAny);
        case TTrue =>
        case TFalse => var _ := AddInstruction(IFail);
        case TRep(p) => CodeRep(g, d, p, opt, fl);
        case TSeq(p1, p2) => CodeSeq(g, d, p1, p2, opt, tt, fl);
        case TChoice(p1, p2) => CodeChoice(g, d, p1, p2, opt, fl);
        case TNot(p) => CodeNot(g, d, p);
        case TAnd(p) => CodeAnd(g, d, p, tt);
        case TBehind(n, p) => CodeBehind(g, d, n, p);
        case TCapture(kind, p) => CodeCapture(g, d, kind, p, tt, fl);
        case TCall(n) => var _ := AddOffsetInst(IOpenCall(n));
        case TGrammar(_) => CodeGrammar(g, d, t);
      }
    }

    /** The switch of peephole for the instruction at slot i. */
    method OptimizeAt(i: nat)
      requires i < |code|
      modifies this
      ensures code == Optimize(old(code), i)
    {
      hide FinalTarget;
      var c := code[i];
      if Labelled(c) {
        var target := FindTarget(i + c.off, |code|);
        if target >= 0 {
          JumpToThere(i, target);
        }
      } else if c.IJmp? {
        var ft := FindTarget(i, |code|);
        if ft >= 0 {
          if Ending(code[ft]) {
            code := code[i := code[ft]];
            if i + 1 < |code| {
              code := code[i + 1 := IEmpty];
            }
          } else if Committing(code[ft]) {
            var fft := FindTarget(ft + code[ft].off, |code|);
            if fft >= 0 {
              code := code[i := Relabel(code[ft], fft - i)];
            }
          } else {
            JumpToThere(i, ft);
          }
        }
      }
    }

    /** peephole: one pass over the instructions, rewriting them where they stand. */
    method OptimizeJumps()
      requires Whole(code, 0)
      modifies this
      ensures code == Optimized(old(code), 0)
    {
      hide Optimize;
      var i: nat := 0;
      while i < |code|
        invariant |code| == |old(code)| && i <= |code| && Whole(code, i)
        invariant Optimized(code, i) == Optimized(old(code), 0)
        decreases |code| - i
      {
        OptimizeWhole(code, i);
        OptimizeAt(i);
        i := i + Size(code[i]);
      }
    }
  }

  lemma PatchGuard(a: Code, f: First, off: int, b: Code)
    ensures var c := a + Guard(f, 0) + b;
      if f.empty then c == a + Guard(f, off) + b
      else |c| > |a| && HasOffset(c[|a|]) && c[|a| := WithOffset(c[|a|], off)] == a + Guard(f, off) + b
  {
    if !f.empty {
      PatchTest(a, f.set_, off, b);
    }
  }

  lemma Regroup(a: Code, b: Code, c: Code, d: Code)
    ensures a + b + c == a + (b + c)
    ensures a + b + c + d == a + (b + c + d) == a + (b + (c + d))
    ensures a + [] == a
  {
  }

  lemma LoopDone(base: Code, guard: Code, choice: Code, c: Code, back: Code)
    ensures base + guard + (choice + (c + back)) == base + (guard + choice + c + back)
  {
  }

  lemma FrontDone(base: Code, guard: Code, choice: Code, c1: Code, commit: Code)
    ensures base + guard + (choice + (c1 + commit)) == base + (guard + choice + c1) + commit
    ensures base + guard + (choice + commit) == base + (guard + choice) + commit
  {
  }

  lemma GuardIsTest(f: First)
    ensures forall off :: Guard(f, off) == if f.empty then [] else TestCode(f.set_, off)
  {
  }

  lemma NoTestAt(code: Code)
    ensures TestAt(code, NO_INST) == NoTest
  {
  }

  lemma TestAtAppend(a: Code, b: Code, tt: int)
    requires tt < |a|
    ensures TestAt(a + b, tt) == TestAt(a, tt)
  {
  }

  ghost predicate NoneBefore(c: Code) {
    forall k :: 0 <= k < |c| && c[k].IJmp? ==> k + c[k].off >= 0
  }

  /** Chains of jumps do not leave the end part of the code they start in. */
  lemma {:induction false} TargetWithin(code: Code, from: nat, q: nat, bound: nat)
    requires from <= |code| && NoneBefore(code[from..])
    ensures var r := FinalTarget(code[from..], q, bound);
      FinalTarget(code, from + q, bound) == if r < 0 then -1 else from + r
    decreases bound
  {
    var part := code[from..];
    if q < |part| && part[q].IJmp? && bound > 0 {
      TargetWithin(code, from, q + part[q].off, bound - 1);
      assert from + (q + part[q].off) == from + q + code[from + q].off;
    }
  }

  lemma RulesSnoc(rules: Grammar, d: nat, t: Tree, n: nat)
    requires t == TGrammar(rules) && n < |rules|
    ensures GenRules(rules, d, t, n + 1) == GenRules(rules, d, t, n) + RuleCode(rules, d, rules[n])
  {
    hide Gen;
  }

  lemma NoRules(rules: Grammar, d: nat, t: Tree)
    requires t == TGrammar(rules)
    ensures GenRules(rules, d, t, 0) == []
  {
  }

  /** compile: the array ends up holding the compiled pattern. */
  method CompilePattern(d: nat, t: Tree) returns (code: Code)
    requires Resolved(0, t)
    ensures code == Compile(d, t)
  {
    var state := new CompileState();
    state.CodeGen([], d, t, false, NO_INST, FullSet());
    var _ := state.AddInstruction(IEnd);
    assert state.code == WholeCode(d, t);
    GenFine([], d, t, false, NoTest, FullSet(), 0);
    FinePlain(IEnd, 0);
    FineAppend(Gen([], d, t, false, NoTest, FullSet()), [IEnd], 0);
    state.OptimizeJumps();
    code := state.code;
  }

  /** The calls before slot k are closed, and what follows is whole instructions. */
  ghost predicate Closing(part: Code, n: nat, k: nat) {
    NoneBefore(part) && Whole(part, k) && forall m :: 0 <= m < |part| && part[m].IOpenCall? ==> part[m].rule < n
  }

  /** One turn of correctcalls' loop. */
  lemma ClosingTurn(part: Code, positions: seq<nat>, k: nat)
    requires Closing(part, |positions|, k) && k < |part|
    ensures NoneBefore(part) && (part[k].IOpenCall? ==> part[k].rule < |positions|)
    ensures !part[k].IOpenCall? ==> Closing(part, |positions|, k + Size(part[k])) && k + Size(part[k]) <= |part|
    ensures !part[k].IOpenCall? ==> CorrectCalls(part, positions, k) == CorrectCalls(part, positions, k + Size(part[k]))
    ensures part[k].IOpenCall? ==>
      var off := positions[part[k].rule] - k;
      var next := part[k := if TailCall(part, k) then IJmp(off) else ICall(off)];
      Closing(next, |positions|, k + 2) && CorrectCalls(part, positions, k) == CorrectCalls(next, positions, k + 2)
      && k + 2 <= |part|
  {
    hide TailCall;
    if part[k].IOpenCall? {
      var off := positions[part[k].rule] - k;
      var next := part[k := if TailCall(part, k) then IJmp(off) else ICall(off)];
      WholeElsewhere(part, next, k + 2);
    }
  }

  /** Changing one slot of the end part of the code. */
  lemma EndChanged(code: Code, from: nat, i: nat, c: Instr)
    requires from <= i < |code|
    ensures var next := code[i := c]; next[..from] == code[..from] && next[from..] == code[from..][i - from := c]
  {
  }

  lemma ClosingEnd(part: Code, positions: seq<nat>, k: nat)
    requires k >= |part|
    ensures CorrectCalls(part, positions, k) == part
  {
  }

  // ---- the interpreter

  /**
   match: one loop over program counter, position, stack and captures. Its assertions are
   the source's; `fail` is the label that pops the stack.
   */
  method Match(code: Code, s: Subject, i: nat) returns (r: Outcome)
    requires i <= |s| && exists out :: Halts(code, s, Start(i), out)
    ensures Halts(code, s, Start(i), r)
  {
    ghost var out :| Halts(code, s, Start(i), out);
    ghost var n: nat :| Steps(code, s, Start(i), n) == Halt(out);
    var p: int, pos: nat, stack, caps := 0, i, [Choice(GIVEUP, i, 0)], [];
    while true
      invariant Steps(code, s, Run(p, pos, stack, caps), n) == Halt(out)
      invariant Halts(code, s, Start(i), out)
      decreases n
    {
      StepsUnfold(code, s, Run(p, pos, stack, caps), n);
      ghost var next := Step(code, s, Run(p, pos, stack, caps));
      if next == Stuck {
        StepsStay(code, s, Stuck, n - 1);
      }
      if p == GIVEUP {
        assert stack == [];
        StepsStay(code, s, Halt(NoMatch), n - 1);
        return NoMatch;
      }
      if code[p].IEnd? {
        assert |stack| == 1;
        StepsStay(code, s, Halt(Matched(pos, caps)), n - 1);
        return Matched(pos, caps);
      }
      var failed: bool;
      failed, p, pos, stack, caps := Execute(code, s, p, pos, stack, caps);
      if failed {
        stack := DropCalls(stack, caps);
        p, pos, caps, stack := stack[0].pc, stack[0].pos, caps[..stack[0].level], stack[1..];
      }
      n := n - 1;
    }
  }

  /** The loop at label fail: pending calls are removed. */
  method DropCalls(stack: seq<Entry>, caps: seq<Capture>) returns (r: seq<Entry>)
    requires FailTo(stack, caps) != Stuck
    ensures |r| > 0 && r[0].Choice? && r[0].level <= |caps|
    ensures FailTo(stack, caps) == Run(r[0].pc, r[0].pos, r[1..], caps[..r[0].level])
  {
    r := stack;
    while r[0].Return?
      invariant FailTo(r, caps) == FailTo(stack, caps) && |r| > 0
      decreases |r|
    {
      r := r[1..];
    }
  }

  /** The instructions other than IEnd and IGiveup; failed says that control goes to label fail. */
  method Execute(code: Code, s: Subject, p: int, pos: nat, stack: seq<Entry>, caps: seq<Capture>)
      returns (failed: bool, p': int, pos': nat, stack': seq<Entry>, caps': seq<Capture>)
    requires pos <= |s| && 0 <= p < |code| && !code[p].IEnd? && Step(code, s, Run(p, pos, stack, caps)) != Stuck
    ensures var next := Step(code, s, Run(p, pos, stack, caps));
      if failed then next == FailTo(stack', caps') else next == Run(p', pos', stack', caps')
  {
    failed, p', pos', stack', caps' := false, p, pos, stack, caps;
    match code[p] {
      case IRet =>
        assert |stack| > 0 && stack[0].Return?;
        p', stack' := stack[0].pc, stack[1..];
      case IAny =>
        if pos < |s| { p', pos' := p + 1, pos + 1; } else { failed := true; }
      case ITestAny(off) =>
        if pos < |s| { p' := p + 2; } else { p' := p + off; }
      case IChar(c) =>
        if pos < |s| && s[pos] == c { p', pos' := p + 1, pos + 1; } else { failed := true; }
      case ITestChar(c, off) =>
        if pos < |s| && s[pos] == c { p' := p + 2; } else { p' := p + off; }
      case ISet(cs) =>
        if pos < |s| && CharInSet(cs, s[pos]) { p', pos' := p + 1 + cs.slots, pos + 1; } else { failed := true; }
      case ITestSet(cs, off) =>
        if pos < |s| && CharInSet(cs, s[pos]) { p' := p + 2 + cs.slots; } else { p' := p + off; }
      case IBehind(n) =>
        if n > pos { failed := true; } else { p', pos' := p + 1, pos - n; }
      case ISpan(cs) =>
        while pos' < |s| && CharInSet(cs, s[pos'])
          invariant pos <= pos' <= |s| && SpanEnd(cs, s, pos') == SpanEnd(cs, s, pos)
        {
          pos' := pos' + 1;
        }
        p' := p + 1 + cs.slots;
      case IJmp(off) => p' := p + off;
      case IChoice(off) =>
        p', stack' := p + 2, [Choice(p + off, pos, |caps|)] + stack;
      case ICall(off) =>
        p', stack' := p + off, [Return(p + 2)] + stack;
      case ICommit(off) =>
        assert |stack| > 0 && stack[0].Choice?;
        p', stack' := p + off, stack[1..];
      case IPartialCommit(off) =>
        assert |stack| > 0 && stack[0].Choice?;
        p', stack' := p + off, [Choice(stack[0].pc, pos, |caps|)] + stack[1..];
      case IBackCommit(off) =>
        assert |stack| > 0 && stack[0].Choice?;
        p', pos', stack', caps' := p + off, stack[0].pos, stack[1..], caps[..stack[0].level];
      case IFailTwice =>
        assert |stack| > 0;
        failed, stack' := true, stack[1..];
      case IFail => failed := true;
      case IFullCapture(kind, len) => p', caps' := p + 1, caps + [Full(kind, pos - len, len)];
      case IOpenCapture(kind) => p', caps' := p + 1, caps + [Open(kind, pos)];
      case ICloseCapture =>
        assert caps != [];
        p', caps' := p + 1, caps + [Close(pos)];
    }
  }

  /** lpeg.match: compile the pattern, run it; the result is what the pattern means. */
  method MatchPattern(d: nat, t: Tree, s: Subject, i: nat) returns (r: Outcome)
    requires Built(d, t) && i <= |s|
    ensures exists fuel: nat :: Agrees(r, Eval(fuel, [], t, s, i, false))
  {
    WellFormedResolved(0, d, t);
    var code := CompilePattern(d, t);
    ghost var fuel, out := MatchCorrect(d, t, s, i);
    assert Halts(code, s, Start(i), out);
    r := Match(code, s, i);
    SameOutcome(code, s, i, r, out);
  }

  lemma SameOutcome(code: Code, s: Subject, i: nat, a: Outcome, b: Outcome)
    requires Halts(code, s, Start(i), a) && Halts(code, s, Start(i), b)
    ensures a == b
  {
    var m: nat :| Steps(code, s, Start(i), m) == Halt(a);
    var n: nat :| Steps(code, s, Start(i), n) == Halt(b);
    HaltsOnce(code, s, Start(i), m, n, a, b);
  }
}
