/**
 The code LPeg emits for a pattern tree, as a function (3rd/lpeg/lpcode.c:348-980). Offsets
 are relative, so the code of a subtree does not depend on where it is placed.
 */
module CodeGen {
  import opened Common
  import opened Charsets
  import opened Analysis
  import opened Semantics
  import opened Machine

  /** What the code generator remembers of the last test that protects the current code. */
  datatype Test = NoTest | TestChar(c: Byte) | TestSet(cs: CompactSet)

  function Slots(n: nat): Code { seq(n, _ => ISlot) }

  /** codetestset: jump by off unless the next character is in cs. */
  function TestCode(cs: Charset, off: int): Code {
    match KindOf(cs)
    case KFail => [IJmp(off), ISlot]
    case KAny => [ITestAny(off), ISlot]
    case KChar(c) => [ITestChar(c, off), ISlot]
    case KSet => [ITestSet(Compact(cs), off), ISlot] + Slots(Compact(cs).slots)
  }

  function TestSize(cs: Charset): (n: nat)
    ensures forall off :: |TestCode(cs, off)| == n
  {
    if KindOf(cs).KSet? then 2 + Compact(cs).slots else 2
  }

  /** No test at all when it would have to accept the empty subject. */
  function Guard(f: First, off: int): Code { if f.empty then [] else TestCode(f.set_, off) }

  function GuardSize(f: First): (n: nat)
    ensures forall off :: |Guard(f, off)| == n
  {
    if f.empty then 0 else TestSize(f.set_)
  }

  /** The part of a test that codechar and codecharset compare with. */
  function TestOf(f: First): Test {
    if f.empty then NoTest
    else match KindOf(f.set_)
      case KChar(c) => TestChar(c)
      case KSet => TestSet(Compact(f.set_))
      case _ => NoTest
  }

  /** codechoice's condition for running p1 without a stacked alternative. */
  predicate ByTest(g: Grammar, d: nat, p1: Tree, p2: Tree, fl: Charset) {
    HeadFail(g, d, p1) ||
    (var f1 := GetFirst(g, d, p1, FullSet());
     !f1.empty && Disjoint(f1.set_, GetFirst(g, d, p2, fl).set_))
  }

  /** coderep's condition for looping without a stacked alternative. */
  predicate RepByTest(g: Grammar, d: nat, p: Tree, fl: Charset) {
    HeadFail(g, d, p) ||
    (var f := GetFirst(g, d, p, FullSet());
     !f.empty && Disjoint(f.set_, fl))
  }

  /** codeand's condition for stepping back over a match instead of saving the position. */
  predicate AndByLength(g: Grammar, p: Tree) {
    0 <= FixedLen(g, {}, p) <= MAX_BEHIND && !HasCaptures(g, {}, p)
  }

  /** The follow set codeseq1 hands to the first part of a sequence. */
  function SeqFollow(g: Grammar, d: nat, p1: Tree, p2: Tree, fl: Charset): Charset {
    if NeedFollow(p1) then GetFirst(g, d, p2, fl).set_ else FullSet()
  }

  /** The test that still protects the second part of a sequence. */
  function SeqTest(g: Grammar, p1: Tree, tt: Test): Test {
    if FixedLen(g, {}, p1) != 0 then NoTest else tt
  }

  /** coderepcharset */
  function RepCharset(p: Tree): Code
    requires IsCharset(p)
  {
    match p
    case TFalse => []
    case TAny => [ITestAny(5), ISlot, IAny, IJmp(-3), ISlot]
    case TChar(c) => [ITestChar(c, 5), ISlot, IAny, IJmp(-3), ISlot]
    case TSet(cs) => [ISpan(Compact(cs))] + Slots(Compact(cs).slots)
  }

  function JumpOver(c2: Code, p2: Tree): Code { if p2.TTrue? then [] else [IJmp(|c2| + 2), ISlot] }

  /** test(first(p1)) -> L1; p1; jmp L2; L1: p2; L2: */
  function TestedChoice(cs: Charset, c1: Code, c2: Code, p2: Tree): Code {
    var jmp := JumpOver(c2, p2);
    TestCode(cs, TestSize(cs) + |c1| + |jmp|) + c1 + jmp + c2
  }

  /** test(first(p1)) -> L1; choice L1; p1; commit L2; L1: p2; L2: */
  function StackedChoice(f: First, c1: Code, c2: Code): Code {
    Guard(f, GuardSize(f) + |c1| + 4) + [IChoice(|c1| + 4), ISlot] + c1 + [ICommit(|c2| + 2), ISlot] + c2
  }

  /** L1: test(first(p)) -> L2; p; jmp L1; L2: */
  function TestedLoop(cs: Charset, c: Code): Code {
    var n := TestSize(cs) + |c|;
    TestCode(cs, n + 2) + c + [IJmp(-n), ISlot]
  }

  /** test(first(p)) -> L2; choice L2 (or partialcommit L1); L1: p; partialcommit L1; L2: */
  function StackedLoop(f: First, c: Code, opt: bool): Code {
    Guard(f, GuardSize(f) + |c| + 4) +
    [if opt then IPartialCommit(2) else IChoice(|c| + 4), ISlot] + c + [IPartialCommit(-|c|), ISlot]
  }

  /** test(first(p)) -> L1; fail; L1: */
  function TestedNot(f: First): Code { Guard(f, GuardSize(f) + 1) + [IFail] }

  /** test(first(p)) -> L1; choice L1; p; failtwice; L1: */
  function StackedNot(f: First, c: Code): Code {
    Guard(f, GuardSize(f) + |c| + 3) + [IChoice(|c| + 3), ISlot] + c + [IFailTwice]
  }

  /** choice L1; p; backcommit L2; L1: fail; L2: */
  function StackedAnd(c: Code): Code {
    [IChoice(|c| + 4), ISlot] + c + [IBackCommit(3), ISlot] + [IFail]
  }

  function StepBack(n: int): Code { if n > 0 then [IBehind(n)] else [] }

  /**
   codegen. opt: this is the last thing inside an optional part whose alternative is on top
   of the stack; tt: the test protecting this code; fl: first characters of what follows.
   */
  function Gen(g: Grammar, d: nat, t: Tree, opt: bool, tt: Test, fl: Charset): Code
    decreases t, 1, 0
  {
    match t
    case TChar(c) => if tt == TestChar(c) then [IAny] else [IChar(c)]
    case TSet(cs) =>
      if tt == TestSet(Compact(cs)) then [IAny] else [ISet(Compact(cs))] + Slots(Compact(cs).slots)
    case TAny => [IAny]
    case TTrue => []
    case TFalse => [IFail]
    case TRep(p) => GenRep(g, d, p, opt, fl)
    case TSeq(p1, p2) =>
      Gen(g, d, p1, false, tt, SeqFollow(g, d, p1, p2, fl)) + Gen(g, d, p2, opt, SeqTest(g, p1, tt), fl)
    case TChoice(p1, p2) => GenChoice(g, d, p1, p2, opt, fl)
    case TNot(p) => GenNot(g, d, p)
    case TAnd(p) =>
      var c := Gen(g, d, p, false, tt, FullSet());
      if AndByLength(g, p) then c + StepBack(FixedLen(g, {}, p)) else StackedAnd(c)
    case TBehind(n, p) => StepBack(n) + Gen(g, d, p, false, NoTest, FullSet())
    case TCapture(kind, p) =>
      var c := Gen(g, d, p, false, tt, fl);
      if ShortBody(g, p) then c + [IFullCapture(kind, FixedLen(g, {}, p))]
      else [IOpenCapture(kind)] + c + [ICloseCapture]
    case TCall(n) => [IOpenCall(n), ISlot]
    case TGrammar(rules) =>
      var body := GenRules(rules, d, t, |rules|);
      [ICall(4), ISlot, IJmp(|body| + 2), ISlot] + CorrectCalls(body, Positions(rules, d, t), 0)
  }

  /** codechoice */
  function GenChoice(g: Grammar, d: nat, p1: Tree, p2: Tree, opt: bool, fl: Charset): Code
    decreases TChoice(p1, p2), 0, 0
  {
    var f := GetFirst(g, d, p1, FullSet());
    if ByTest(g, d, p1, p2, fl) then
      TestedChoice(f.set_, Gen(g, d, p1, false, TestOf(First(f.set_, false)), fl), Gen(g, d, p2, opt, NoTest, fl), p2)
    else if opt && p2.TTrue? then
      [IPartialCommit(2), ISlot] + Gen(g, d, p1, true, NoTest, FullSet())
    else
      StackedChoice(f, Gen(g, d, p1, p2.TTrue?, TestOf(f), FullSet()), Gen(g, d, p2, opt, NoTest, fl))
  }

  /** coderep */
  function GenRep(g: Grammar, d: nat, p: Tree, opt: bool, fl: Charset): Code
    decreases TRep(p), 0, 0
  {
    var f := GetFirst(g, d, p, FullSet());
    if IsCharset(p) then RepCharset(p)
    else if RepByTest(g, d, p, fl) then
      TestedLoop(f.set_, Gen(g, d, p, false, TestOf(First(f.set_, false)), FullSet()))
    else StackedLoop(f, Gen(g, d, p, false, NoTest, FullSet()), opt)
  }

  /** codenot */
  function GenNot(g: Grammar, d: nat, p: Tree): Code
    decreases TNot(p), 0, 0
  {
    var f := GetFirst(g, d, p, FullSet());
    if HeadFail(g, d, p) then TestedNot(f) else StackedNot(f, Gen(g, d, p, false, NoTest, FullSet()))
  }

  /** The three shapes of a choice. */
  lemma ChoiceCode(g: Grammar, d: nat, p1: Tree, p2: Tree, opt: bool, tt: Test, fl: Charset)
    ensures var f, c2, c := GetFirst(g, d, p1, FullSet()), Gen(g, d, p2, opt, NoTest, fl), Gen(g, d, TChoice(p1, p2), opt, tt, fl);
      if ByTest(g, d, p1, p2, fl) then c == TestedChoice(f.set_, Gen(g, d, p1, false, TestOf(First(f.set_, false)), fl), c2, p2)
      else if opt && p2.TTrue? then c == [IPartialCommit(2), ISlot] + Gen(g, d, p1, true, NoTest, FullSet())
      else c == StackedChoice(f, Gen(g, d, p1, p2.TTrue?, TestOf(f), FullSet()), c2)
  {
    hide GetFirst, ByTest, TestedChoice, StackedChoice, TestOf;
  }

  /** The three shapes of a repetition. */
  lemma RepCode(g: Grammar, d: nat, p: Tree, opt: bool, tt: Test, fl: Charset)
    ensures var f, c := GetFirst(g, d, p, FullSet()), Gen(g, d, TRep(p), opt, tt, fl);
      if IsCharset(p) then c == RepCharset(p)
      else if RepByTest(g, d, p, fl) then
        c == TestedLoop(f.set_, Gen(g, d, p, false, TestOf(First(f.set_, false)), FullSet()))
      else c == StackedLoop(f, Gen(g, d, p, false, NoTest, FullSet()), opt)
  {
    hide GetFirst, RepByTest, TestedLoop, StackedLoop, TestOf;
  }

  /** The code of the first k rules of a grammar, calls still open. */
  function GenRules(rules: Grammar, d: nat, ghost t: Tree, k: nat): Code
    requires t == TGrammar(rules) && k <= |rules|
    decreases t, 0, k
  {
    if k == 0 then []
    else GenRules(rules, d, t, k - 1) + Gen(rules, d, rules[k - 1], false, NoTest, FullSet()) + [IRet]
  }

  /** codegrammar's array of rule positions, relative to the first rule. */
  function Positions(rules: Grammar, d: nat, ghost t: Tree): (ps: seq<nat>)
    requires t == TGrammar(rules)
    ensures |ps| == |rules|
    decreases t, 0, |rules| + 1
  {
    seq(|rules|, k requires 0 <= k < |rules| => |GenRules(rules, d, t, k)|)
  }

  /** finaltarget, giving up with -1 on chains longer than the bound or leaving the code. */
  function FinalTarget(code: Code, i: int, bound: nat): (r: int)
    ensures r == -1 || (0 <= r < |code| && !code[r].IJmp?)
    decreases bound
  {
    if !(0 <= i < |code|) then -1
    else if !code[i].IJmp? then i
    else if bound == 0 then -1
    else FinalTarget(code, i + code[i].off, bound - 1)
  }

  /** Is a call at i followed by a return? */
  predicate TailCall(code: Code, i: nat) {
    var r := FinalTarget(code, i + 2, |code|);
    r >= 0 && code[r].IRet?
  }

  /** correctcalls from slot i on: open calls become calls, or jumps when a return follows. */
  function CorrectCalls(code: Code, positions: seq<nat>, i: nat): (r: Code)
    ensures |r| == |code|
    decreases |code| - i
  {
    if i >= |code| then code
    else if code[i].IOpenCall? && code[i].rule < |positions| then
      var off := positions[code[i].rule] - i;
      var closed := code[i := if TailCall(code, i) then IJmp(off) else ICall(off)];
      CorrectCalls(closed, positions, i + 2)
    else CorrectCalls(code, positions, i + Size(code[i]))
  }
}
