/**
 The code of a pattern does what the pattern means. Every lemma has the same shape: if the
 machine halts with an outcome from each state the pattern can legitimately leave it in,
 then it halts with that outcome from the start of the pattern's code.
 */
module Correctness {
  import opened Charsets
  import opened Analysis
  import opened Semantics
  import opened Soundness
  import opened Machine
  import opened CodeGen
  import opened Placement

  predicate TestHolds(tt: Test, s: Subject, i: nat) {
    match tt
    case NoTest => true
    case TestChar(c) => i < |s| && s[i] == c
    case TestSet(cs) => Legal(cs) && i < |s| && CharInSet(cs, s[i])
  }

  ghost predicate LevelsBelow(stack: seq<Entry>, n: nat) {
    forall k :: 0 <= k < |stack| && stack[k].Choice? ==> stack[k].level <= n
  }

  ghost predicate Ends(x: Program, st: State, out: Outcome) { Halts(x.code, x.s, st, out) }

  /** Inside an optional part: ending with the alternative moved anywhere, or failing into it, is fine. */
  ghost predicate OptEnds(x: Program, pc: int, j: nat, stack: seq<Entry>, caps: seq<Capture>, out: Outcome)
    requires |stack| > 0
  {
    (forall pos: nat, level: nat ::
      Ends(x, Run(pc, j, [Choice(stack[0].pc, pos, level)] + stack[1..], caps), out)) &&
    Ends(x, Run(stack[0].pc, j, stack[1..], caps), out)
  }

  /** The machine halts with out from every state that result r allows at the end of the code. */
  ghost predicate Continues(x: Program, r: Result, pc: int, opt: bool, fl: Charset,
                            stack: seq<Entry>, caps: seq<Capture>, out: Outcome)
    requires opt ==> |stack| > 0
  {
    match r
    case Out => false
    case Fail => Ends(x, FailTo(stack, caps), out)
    case Match(j, cs) =>
      (if opt then OptEnds(x, pc, j, stack, caps + cs, out) else Ends(x, Run(pc, j, stack, caps + cs), out)) &&
      (!Viable(x.s, j, fl) ==> Ends(x, FailTo(stack, caps), out))
  }

  ghost predicate Pre(x: Program, pc: int, t: Tree, opt: bool, tt: Test, fl: Charset, fuel: nat,
                      i: nat, stack: seq<Entry>, caps: seq<Capture>, out: Outcome)
  {
    RulesPlaced(x) && WellFormed(x.g, x.d, t) && i <= |x.s| &&
    (opt ==> |stack| > 0 && stack[0].Choice? && fl == FullSet()) &&
    TestHolds(tt, x.s, i) && LevelsBelow(stack, |caps|) &&
    var c := Gen(x.g, x.d, t, opt, tt, fl);
    Placed(x.code, pc, c, x.env) &&
    Continues(x, Eval(fuel, x.g, t, x.s, i, true), pc + |c|, opt, fl, stack, caps, out)
  }

  lemma Before(x: Program, st: State, out: Outcome)
    requires Ends(x, Step(x.code, x.s, st), out)
    ensures Ends(x, st, out)
  {
    HaltsBefore(x.code, x.s, st, out);
  }

  lemma {:induction false} FailToTop(stack: seq<Entry>, caps: seq<Capture>, more: seq<Capture>)
    requires LevelsBelow(stack, |caps|)
    ensures FailTo(stack, caps + more) == FailTo(stack, caps)
  {
    if |stack| > 0 {
      if stack[0].Return? {
        FailToTop(stack[1..], caps, more);
      } else {
        assert (caps + more)[..stack[0].level] == caps[..stack[0].level];
      }
    }
  }

  // ---- single characters

  /** One instruction tests the next character, unless a test before it already has. */
  lemma CharStep(x: Program, pc: int, t: Tree, opt: bool, tt: Test, fl: Charset, i: nat, stack: seq<Entry>, caps: seq<Capture>)
    requires IsCharset(t) && i <= |x.s| && TestHolds(tt, x.s, i)
    requires Placed(x.code, pc, Gen(x.g, x.d, t, opt, tt, fl), x.env)
    ensures Step(x.code, x.s, Run(pc, i, stack, caps)) ==
      if i < |x.s| && ToCharset(t)[x.s[i]] then Run(pc + |Gen(x.g, x.d, t, opt, tt, fl)|, i + 1, stack, caps)
      else FailTo(stack, caps)
  {
    hide GetFirst, CheckAux, FixedLen, HasCaptures, HeadFail, GenRep, GenNot, GenChoice, CorrectCalls, FailTo, Compact;
    var c := Gen(x.g, x.d, t, opt, tt, fl);
    assert Realises(x.code, pc + 0, c[0], x.env);
    if t.TSet? && i < |x.s| {
      CompactSound(t.cs, x.s[i]);
    }
    CompactLegal(t);
  }

  lemma CompactLegal(t: Tree)
    ensures t.TSet? ==> Legal(Compact(t.cs))
  {
  }

  lemma SimChar(x: Program, pc: int, t: Tree, opt: bool, tt: Test, fl: Charset, fuel: nat,
               i: nat, stack: seq<Entry>, caps: seq<Capture>, out: Outcome)
    requires IsCharset(t) && Pre(x, pc, t, opt, tt, fl, fuel, i, stack, caps, out)
    ensures Ends(x, Run(pc, i, stack, caps), out)
  {
    hide Ends, RulesPlaced, Gen, Placed, WellFormed, TestHolds, Step, FailTo;
    CharStep(x, pc, t, opt, tt, fl, i, stack, caps);
    assert caps + [] == caps;
    if opt {
      SameTop(x, pc + |Gen(x.g, x.d, t, opt, tt, fl)|, i + 1, stack, caps, out);
    }
    Before(x, Run(pc, i, stack, caps), out);
  }

  lemma SameTop(x: Program, pc: int, j: nat, stack: seq<Entry>, caps: seq<Capture>, out: Outcome)
    requires |stack| > 0 && stack[0].Choice?
    ensures OptEnds(x, pc, j, stack, caps, out) ==> Ends(x, Run(pc, j, stack, caps), out)
  {
    assert [Choice(stack[0].pc, stack[0].pos, stack[0].level)] + stack[1..] == stack;
  }

  // ---- calls and grammars

  lemma {:induction false} TailReturn(x: Program, q: int, n: nat, ret: int,
                    j: nat, stack: seq<Entry>, caps: seq<Capture>, out: Outcome)
    requires JumpsToReturn(x.code, q, n) && 0 <= ret < |x.code| && x.code[ret].IRet?
    requires Ends(x, Run(q, j, stack, caps), out)
    ensures Ends(x, Run(ret, j, stack, caps), out)
    decreases n
  {
    HaltsAfter(x.code, x.s, Run(q, j, stack, caps), out);
    if x.code[q].IRet? {
      Before(x, Run(ret, j, stack, caps), out);
    } else if j <= |x.s| {
      TailReturn(x, q + x.code[q].off, n - 1, ret, j, stack, caps, out);
    } else {
      Before(x, Run(ret, j, stack, caps), out);
    }
  }

  lemma TrueCode(g: Grammar, d: nat, t: Tree, opt: bool, fl: Charset)
    ensures t.TTrue? ==> Gen(g, d, t, opt, NoTest, fl) == []
  {
  }

  lemma RuleAt(x: Program, n: nat)
    requires RulesPlaced(x) && Used(x.g, n)
    ensures n < |x.g| == |x.env|
    ensures var body := Gen(x.g, x.d, x.g[n], false, NoTest, FullSet());
      Placed(x.code, x.env[n], body, x.env) && At(x, x.env[n] + |body|, IRet) && WellFormed(x.g, x.d, x.g[n])
  {
    hide Gen, GetFirst, CheckAux, FixedLen, HasCaptures;
    var body := Gen(x.g, x.d, x.g[n], false, NoTest, FullSet());
    PlacedSplit(x.code, x.env[n], body, [IRet], x.env);
    assert Realises(x.code, x.env[n] + |body| + 0, [IRet][0], x.env);
  }

  /** An open call is placed as a call, or as a jump when a return follows. */
  lemma CallAt(x: Program, pc: int, n: nat)
    requires Placed(x.code, pc, [IOpenCall(n), ISlot], x.env)
    ensures n < |x.env|
    ensures At(x, pc, ICall(x.env[n] - pc)) || (At(x, pc, IJmp(x.env[n] - pc)) && ReturnFollows(x.code, pc + 2))
  {
    assert Realises(x.code, pc + 0, [IOpenCall(n), ISlot][0], x.env);
  }

  /** Where a called rule returns, the call goes on. */
  lemma CallEnds(x: Program, r: Result, ret: int, next: int, opt: bool, fl: Charset,
                 stack: seq<Entry>, caps: seq<Capture>, out: Outcome)
    requires (opt ==> |stack| > 0 && stack[0].Choice?) && Continues(x, r, next, opt, fl, stack, caps, out)
    requires At(x, ret, IRet) && (r.Match? ==> r.pos <= |x.s|)
    ensures Continues(x, r, ret, false, FullSet(), [Return(next)] + stack, caps, out)
  {
    hide Ends, At;
    assert ([Return(next)] + stack)[1..] == stack;
    if r.Match? {
      if opt {
        SameTop(x, next, r.pos, stack, caps + r.caps, out);
      }
      ExecReturn(x, ret, r.pos, next, stack, caps + r.caps, out);
    }
  }

  /** A rule entered by a jump returns for the call that a return follows. */
  lemma TailEnds(x: Program, r: Result, ret: int, next: int, opt: bool, fl: Charset,
                 stack: seq<Entry>, caps: seq<Capture>, out: Outcome)
    requires (opt ==> |stack| > 0 && stack[0].Choice?) && Continues(x, r, next, opt, fl, stack, caps, out)
    requires At(x, ret, IRet) && ReturnFollows(x.code, next) && (r.Match? ==> r.pos <= |x.s|)
    ensures Continues(x, r, ret, false, FullSet(), stack, caps, out)
  {
    hide Ends;
    if r.Match? {
      if opt {
        SameTop(x, next, r.pos, stack, caps + r.caps, out);
      }
      var m: nat :| JumpsToReturn(x.code, next, m);
      TailReturn(x, next, m, ret, r.pos, stack, caps + r.caps, out);
    }
  }

  lemma {:induction false} SimCall(x: Program, pc: int, t: Tree, opt: bool, tt: Test, fl: Charset, fuel: nat,
               i: nat, stack: seq<Entry>, caps: seq<Capture>, out: Outcome)
    requires t.TCall? && Pre(x, pc, t, opt, tt, fl, fuel, i, stack, caps, out)
    ensures Ends(x, Run(pc, i, stack, caps), out)
    decreases fuel, t, 0
  {
    hide Ends, Placed, Gen, RulesPlaced, Eval, At, ReturnFollows, WellFormed, TestHolds, Continues, LevelsBelow,
      FailTo, Used, Calls;
    var n := t.rule;
    NotOut(x, Eval(fuel, x.g, t, x.s, i, true), pc + |Gen(x.g, x.d, t, opt, tt, fl)|, opt, fl, stack, caps, out);
    CallOpens(x, pc, t, opt, tt, fl, fuel, i);
    if At(x, pc, ICall(x.env[n] - pc)) {
      SimCallBack(x, pc, n, opt, fl, fuel - 1, i, stack, caps, out);
    } else {
      SimTailCall(x, pc, n, opt, fl, fuel - 1, i, stack, caps, out);
    }
  }

  lemma {:induction false} SimCallBack(x: Program, pc: int, n: nat, opt: bool, fl: Charset, fuel: nat,
               i: nat, stack: seq<Entry>, caps: seq<Capture>, out: Outcome)
    requires RulesPlaced(x) && Used(x.g, n) && i <= |x.s| && LevelsBelow(stack, |caps|)
    requires (opt ==> |stack| > 0 && stack[0].Choice?) && At(x, pc, ICall(x.env[n] - pc))
    requires Continues(x, Eval(fuel, x.g, x.g[n], x.s, i, true), pc + 2, opt, fl, stack, caps, out)
    ensures Ends(x, Run(pc, i, stack, caps), out)
    decreases fuel, x.g[n], 5
  {
    RuleAt(x, n);
    Levels(stack, pc + 2, |caps|);
    hide Ends, Placed, Gen, RulesPlaced, At, WellFormed, Continues, LevelsBelow, Used, Calls;
    var ret := x.env[n] + |Gen(x.g, x.d, x.g[n], false, NoTest, FullSet())|;
    CallEnds(x, Eval(fuel, x.g, x.g[n], x.s, i, true), ret, pc + 2, opt, fl, stack, caps, out);
    hide Eval;
    SimRule(x, n, fuel, i, [Return(pc + 2)] + stack, caps, out);
    ExecCall(x, pc, x.env[n] - pc, i, stack, caps, out);
  }

  lemma {:induction false} SimTailCall(x: Program, pc: int, n: nat, opt: bool, fl: Charset, fuel: nat,
               i: nat, stack: seq<Entry>, caps: seq<Capture>, out: Outcome)
    requires RulesPlaced(x) && Used(x.g, n) && i <= |x.s| && LevelsBelow(stack, |caps|)
    requires (opt ==> |stack| > 0 && stack[0].Choice?) && At(x, pc, IJmp(x.env[n] - pc)) && ReturnFollows(x.code, pc + 2)
    requires Continues(x, Eval(fuel, x.g, x.g[n], x.s, i, true), pc + 2, opt, fl, stack, caps, out)
    ensures Ends(x, Run(pc, i, stack, caps), out)
    decreases fuel, x.g[n], 5
  {
    RuleAt(x, n);
    hide Ends, Placed, Gen, RulesPlaced, At, WellFormed, Continues, LevelsBelow, Used, Calls, ReturnFollows;
    var ret := x.env[n] + |Gen(x.g, x.d, x.g[n], false, NoTest, FullSet())|;
    TailEnds(x, Eval(fuel, x.g, x.g[n], x.s, i, true), ret, pc + 2, opt, fl, stack, caps, out);
    hide Eval;
    SimRule(x, n, fuel, i, stack, caps, out);
    ExecJmp(x, pc, x.env[n] - pc, i, stack, caps, out);
  }

  lemma NotOut(x: Program, r: Result, pc: int, opt: bool, fl: Charset, stack: seq<Entry>, caps: seq<Capture>, out: Outcome)
    requires (opt ==> |stack| > 0) && Continues(x, r, pc, opt, fl, stack, caps, out)
    ensures !r.Out?
  {
  }

  lemma Levels(stack: seq<Entry>, next: int, n: nat)
    requires LevelsBelow(stack, n)
    ensures LevelsBelow([Return(next)] + stack, n)
  {
  }

  lemma CallOpens(x: Program, pc: int, t: Tree, opt: bool, tt: Test, fl: Charset, fuel: nat, i: nat)
    requires t.TCall? && RulesPlaced(x) && WellFormed(x.g, x.d, t) && i <= |x.s| && !Eval(fuel, x.g, t, x.s, i, true).Out?
    requires Placed(x.code, pc, Gen(x.g, x.d, t, opt, tt, fl), x.env)
    ensures var n := t.rule;
      Used(x.g, n) && n < |x.env| && n < |x.g| && fuel > 0 && |Gen(x.g, x.d, t, opt, tt, fl)| == 2
      && (At(x, pc, ICall(x.env[n] - pc)) || (At(x, pc, IJmp(x.env[n] - pc)) && ReturnFollows(x.code, pc + 2)))
      && Eval(fuel, x.g, t, x.s, i, true) == Eval(fuel - 1, x.g, x.g[n], x.s, i, true)
  {
    hide Placed, GetFirst, CheckAux, FixedLen, HasCaptures, HeadFail, GenRep, GenNot, GenChoice, At, ReturnFollows;
    CallAt(x, pc, t.rule);
  }

  /** The code of a rule, as its caller enters it. */
  lemma {:induction false} SimRule(x: Program, n: nat, fuel: nat, i: nat, stack: seq<Entry>, caps: seq<Capture>, out: Outcome)
    requires RulesPlaced(x) && Used(x.g, n) && i <= |x.s| && LevelsBelow(stack, |caps|)
    requires Continues(x, Eval(fuel, x.g, x.g[n], x.s, i, true),
                       x.env[n] + |Gen(x.g, x.d, x.g[n], false, NoTest, FullSet())|, false, FullSet(), stack, caps, out)
    ensures Ends(x, Run(x.env[n], i, stack, caps), out)
    decreases fuel, x.g[n], 4
  {
    RuleAt(x, n);
    hide Ends, Placed, Gen, RulesPlaced, Eval, At, WellFormed, Continues;
    Sim(x, x.env[n], x.g[n], false, NoTest, FullSet(), fuel, i, stack, caps, out);
  }

  // ---- tests

  lemma TestStep(x: Program, pc: int, cs: Charset, off: int, i: nat, stack: seq<Entry>, caps: seq<Capture>)
    requires i <= |x.s| && Placed(x.code, pc, TestCode(cs, off), x.env)
    ensures Step(x.code, x.s, Run(pc, i, stack, caps)) ==
            Run(if i < |x.s| && cs[x.s[i]] then pc + TestSize(cs) else pc + off, i, stack, caps)
  {
    assert Realises(x.code, pc + 0, TestCode(cs, off)[0], x.env);
    if i < |x.s| {
      CompactSound(cs, x.s[i]);
      KindMember(cs, x.s[i]);
    }
  }

  // ---- one rule per instruction

  ghost predicate At(x: Program, pc: int, c: Instr) { 0 <= pc < |x.code| && x.code[pc] == c }

  lemma PlacedAt(x: Program, pc: int, c: Code)
    requires |c| > 0 && !c[0].IOpenCall? && Placed(x.code, pc, c, x.env)
    ensures At(x, pc, c[0])
  {
    assert Realises(x.code, pc + 0, c[0], x.env);
  }

  lemma ExecCall(x: Program, pc: int, off: int, i: nat, stack: seq<Entry>, caps: seq<Capture>, out: Outcome)
    requires i <= |x.s| && At(x, pc, ICall(off))
    requires Ends(x, Run(pc + off, i, [Return(pc + 2)] + stack, caps), out)
    ensures Ends(x, Run(pc, i, stack, caps), out)
  {
    Before(x, Run(pc, i, stack, caps), out);
  }

  lemma ExecReturn(x: Program, pc: int, i: nat, ret: int, stack: seq<Entry>, caps: seq<Capture>, out: Outcome)
    requires i <= |x.s| && At(x, pc, IRet)
    requires Ends(x, Run(ret, i, stack, caps), out)
    ensures Ends(x, Run(pc, i, [Return(ret)] + stack, caps), out)
  {
    assert ([Return(ret)] + stack)[1..] == stack;
    Before(x, Run(pc, i, [Return(ret)] + stack, caps), out);
  }

  lemma SameEnds(x: Program, y: Program, out: Outcome)
    requires x.code == y.code && x.s == y.s
    ensures forall st :: Ends(x, st, out) <==> Ends(y, st, out)
  {
  }

  lemma ExecTest(x: Program, pc: int, cs: Charset, off: int, i: nat, stack: seq<Entry>, caps: seq<Capture>, out: Outcome)
    requires i <= |x.s| && Placed(x.code, pc, TestCode(cs, off), x.env)
    requires var next := if i < |x.s| && cs[x.s[i]] then pc + TestSize(cs) else pc + off;
      Ends(x, Run(next, i, stack, caps), out)
    ensures Ends(x, Run(pc, i, stack, caps), out)
  {
    TestStep(x, pc, cs, off, i, stack, caps);
    Before(x, Run(pc, i, stack, caps), out);
  }

  lemma ExecJmp(x: Program, pc: int, off: int, i: nat, stack: seq<Entry>, caps: seq<Capture>, out: Outcome)
    requires i <= |x.s| && At(x, pc, IJmp(off))
    requires Ends(x, Run(pc + off, i, stack, caps), out)
    ensures Ends(x, Run(pc, i, stack, caps), out)
  {
    Before(x, Run(pc, i, stack, caps), out);
  }

  lemma ExecFail(x: Program, pc: int, i: nat, stack: seq<Entry>, caps: seq<Capture>, out: Outcome)
    requires i <= |x.s| && At(x, pc, IFail)
    requires Ends(x, FailTo(stack, caps), out)
    ensures Ends(x, Run(pc, i, stack, caps), out)
  {
    Before(x, Run(pc, i, stack, caps), out);
  }

  lemma ExecChoice(x: Program, pc: int, off: int, i: nat, stack: seq<Entry>, caps: seq<Capture>, out: Outcome)
    requires i <= |x.s| && At(x, pc, IChoice(off))
    requires Ends(x, Run(pc + 2, i, [Choice(pc + off, i, |caps|)] + stack, caps), out)
    ensures Ends(x, Run(pc, i, stack, caps), out)
  {
    Before(x, Run(pc, i, stack, caps), out);
  }

  lemma ExecCommit(x: Program, pc: int, off: int, i: nat, top: Entry, stack: seq<Entry>, caps: seq<Capture>, out: Outcome)
    requires i <= |x.s| && At(x, pc, ICommit(off)) && top.Choice?
    requires Ends(x, Run(pc + off, i, stack, caps), out)
    ensures Ends(x, Run(pc, i, [top] + stack, caps), out)
  {
    assert ([top] + stack)[1..] == stack;
    Before(x, Run(pc, i, [top] + stack, caps), out);
  }

  lemma ExecPartialCommit(x: Program, pc: int, off: int, i: nat, top: Entry, stack: seq<Entry>, caps: seq<Capture>, out: Outcome)
    requires i <= |x.s| && At(x, pc, IPartialCommit(off)) && top.Choice?
    requires Ends(x, Run(pc + off, i, [Choice(top.pc, i, |caps|)] + stack, caps), out)
    ensures Ends(x, Run(pc, i, [top] + stack, caps), out)
  {
    assert ([top] + stack)[1..] == stack;
    Before(x, Run(pc, i, [top] + stack, caps), out);
  }

  lemma ExecBackCommit(x: Program, pc: int, off: int, i: nat, top: Entry, stack: seq<Entry>, caps: seq<Capture>, out: Outcome)
    requires i <= |x.s| && At(x, pc, IBackCommit(off)) && top.Choice? && top.level <= |caps|
    requires Ends(x, Run(pc + off, top.pos, stack, caps[..top.level]), out)
    ensures Ends(x, Run(pc, i, [top] + stack, caps), out)
  {
    assert ([top] + stack)[1..] == stack;
    Before(x, Run(pc, i, [top] + stack, caps), out);
  }

  lemma ExecFailTwice(x: Program, pc: int, i: nat, top: Entry, stack: seq<Entry>, caps: seq<Capture>, out: Outcome)
    requires i <= |x.s| && At(x, pc, IFailTwice)
    requires Ends(x, FailTo(stack, caps), out)
    ensures Ends(x, Run(pc, i, [top] + stack, caps), out)
  {
    assert ([top] + stack)[1..] == stack;
    Before(x, Run(pc, i, [top] + stack, caps), out);
  }

  lemma ExecBehind(x: Program, pc: int, n: nat, i: nat, stack: seq<Entry>, caps: seq<Capture>, out: Outcome)
    requires i <= |x.s| && At(x, pc, IBehind(n))
    requires Ends(x, if n > i then FailTo(stack, caps) else Run(pc + 1, i - n, stack, caps), out)
    ensures Ends(x, Run(pc, i, stack, caps), out)
  {
    Before(x, Run(pc, i, stack, caps), out);
  }

  lemma ExecCapture(x: Program, pc: int, c: Instr, i: nat, stack: seq<Entry>, caps: seq<Capture>, e: Capture, out: Outcome)
    requires i <= |x.s| && At(x, pc, c)
    requires match c
      case IFullCapture(kind, len) => len <= i && e == Full(kind, i - len, len)
      case IOpenCapture(kind) => e == Open(kind, i)
      case ICloseCapture => caps != [] && e == Close(i)
      case _ => false
    requires Ends(x, Run(pc + 1, i, stack, caps + [e]), out)
    ensures Ends(x, Run(pc, i, stack, caps), out)
  {
    Before(x, Run(pc, i, stack, caps), out);
  }

  lemma TestPassed(cs: Charset, s: Subject, i: nat)
    requires i < |s| && cs[s[i]]
    ensures TestHolds(TestOf(First(cs, false)), s, i)
  {
    CompactSound(cs, s[i]);
    KindMember(cs, s[i]);
  }

  // ---- choice

  lemma LayoutChoiceTest(x: Program, pc: int, cs: Charset, c1: Code, c2: Code, p2: Tree)
    requires Placed(x.code, pc, TestedChoice(cs, c1, c2, p2), x.env)
    ensures var jmp := JumpOver(c2, p2);
      && Placed(x.code, pc, TestCode(cs, TestSize(cs) + |c1| + |jmp|), x.env)
      && Placed(x.code, pc + TestSize(cs), c1, x.env)
      && Placed(x.code, pc + TestSize(cs) + |c1|, jmp, x.env)
      && Placed(x.code, pc + TestSize(cs) + |c1| + |jmp|, c2, x.env)
      && |TestedChoice(cs, c1, c2, p2)| == TestSize(cs) + |c1| + |jmp| + |c2|
  {
    hide GetFirst, TestCode;
    var jmp := JumpOver(c2, p2);
    var test := TestCode(cs, TestSize(cs) + |c1| + |jmp|);
    PlacedSplit(x.code, pc, test + c1 + jmp, c2, x.env);
    PlacedSplit(x.code, pc, test + c1, jmp, x.env);
    PlacedSplit(x.code, pc, test, c1, x.env);
  }

  /** A failed test on first(p) means that p fails; shared by all the tests the generator emits. */
  lemma TestFailed(x: Program, p: Tree, fuel: nat, i: nat)
    requires RulesPlaced(x) && WellFormed(x.g, x.d, p) && i <= |x.s|
    requires var f := GetFirst(x.g, x.d, p, FullSet());
      (!f.empty || HeadFail(x.g, x.d, p)) && !(i < |x.s| && f.set_[x.s[i]])
    ensures !Eval(fuel, x.g, p, x.s, i, true).Match?
  {
    if HeadFail(x.g, x.d, p) {
      HeadFailNotEmpty(x.g, x.d, p, FullSet());
    }
    if i == |x.s| {
      FirstEmptySound(fuel, x.g, x.d, p, x.s, true, FullSet());
    } else if Eval(fuel, x.g, p, x.s, i, true).Match? {
      FirstSound(fuel, x.g, x.d, x.d, p, x.s, i, true, FullSet());
    }
  }

  ghost predicate Setting(x: Program, t: Tree, opt: bool, fl: Charset, i: nat, stack: seq<Entry>, caps: seq<Capture>) {
    RulesPlaced(x) && WellFormed(x.g, x.d, t) && i <= |x.s| && LevelsBelow(stack, |caps|) &&
    (opt ==> |stack| > 0 && stack[0].Choice? && fl == FullSet())
  }

  /** With the test passed, a failure of p1 cannot be repaired by p2. */
  lemma ByTestSound(x: Program, p1: Tree, p2: Tree, fl: Charset, fuel: nat, i: nat)
    requires RulesPlaced(x) && WellFormed(x.g, x.d, p1) && WellFormed(x.g, x.d, p2) && i < |x.s|
    requires ByTest(x.g, x.d, p1, p2, fl) && GetFirst(x.g, x.d, p1, FullSet()).set_[x.s[i]]
    requires Eval(fuel, x.g, p1, x.s, i, true).Fail?
    ensures var r2 := Eval(fuel, x.g, p2, x.s, i, true); r2.Match? ==> !Viable(x.s, r2.pos, fl)
  {
    if HeadFail(x.g, x.d, p1) {
      HeadFailSound(fuel, x.g, x.d, p1, x.s, i, true);
    } else {
      var r2 := Eval(fuel, x.g, p2, x.s, i, true);
      if r2.Match? && (r2.pos == i ==> fl[x.s[i]]) {
        FirstSound(fuel, x.g, x.d, x.d, p2, x.s, i, true, fl);
      }
    }
  }

  /** Where p1 may end in a tested choice, the choice may end. */
  lemma TestedChoiceEnds(x: Program, p1: Tree, p2: Tree, opt: bool, fl: Charset, end1: int, c2: Code, fuel: nat,
                         i: nat, stack: seq<Entry>, caps: seq<Capture>, out: Outcome)
    requires Setting(x, TChoice(p1, p2), opt, fl, i, stack, caps) && ByTest(x.g, x.d, p1, p2, fl)
    requires i < |x.s| && GetFirst(x.g, x.d, p1, FullSet()).set_[x.s[i]]
    requires p2.TTrue? ==> c2 == []
    requires Placed(x.code, end1, JumpOver(c2, p2), x.env)
    requires Continues(x, Eval(fuel, x.g, TChoice(p1, p2), x.s, i, true), end1 + |JumpOver(c2, p2)| + |c2|,
                       opt, fl, stack, caps, out)
    ensures Continues(x, Eval(fuel, x.g, p1, x.s, i, true), end1, false, fl, stack, caps, out)
  {
    hide Ends, GetFirst, CheckAux, FixedLen, HasCaptures, HeadFail, RulesPlaced, Used, Calls, Resolved;
    var r1 := Eval(fuel, x.g, p1, x.s, i, true);
    if r1.Fail? {
      ByTestSound(x, p1, p2, fl, fuel, i);
    } else {
      if opt {
        SameTop(x, end1 + |JumpOver(c2, p2)| + |c2|, r1.pos, stack, caps + r1.caps, out);
      }
      if !p2.TTrue? {
        PlacedAt(x, end1, JumpOver(c2, p2));
        ExecJmp(x, end1, |c2| + 2, r1.pos, stack, caps + r1.caps, out);
      }
    }
  }

  lemma {:induction false} SimChoiceTest(x: Program, pc: int, p1: Tree, p2: Tree, opt: bool, fl: Charset,
               cs: Charset, c1: Code, c2: Code, fuel: nat,
               i: nat, stack: seq<Entry>, caps: seq<Capture>, out: Outcome)
    requires Setting(x, TChoice(p1, p2), opt, fl, i, stack, caps) && ByTest(x.g, x.d, p1, p2, fl)
    requires cs == GetFirst(x.g, x.d, p1, FullSet()).set_
    requires c1 == Gen(x.g, x.d, p1, false, TestOf(First(cs, false)), fl)
    requires c2 == Gen(x.g, x.d, p2, opt, NoTest, fl)
    requires Placed(x.code, pc, TestedChoice(cs, c1, c2, p2), x.env)
    requires Continues(x, Eval(fuel, x.g, TChoice(p1, p2), x.s, i, true), pc + |TestedChoice(cs, c1, c2, p2)|,
                       opt, fl, stack, caps, out)
    ensures Ends(x, Run(pc, i, stack, caps), out)
    decreases fuel, TChoice(p1, p2), 0
  {
    hide Ends, RulesPlaced, Placed, GetFirst, TestCode, GuardSize, Guard, TestSize, TestOf, CheckAux, FixedLen,
      HasCaptures, Gen, HeadFail, Used, Calls, Resolved;
    TrueCode(x.g, x.d, p2, opt, fl);
    LayoutChoiceTest(x, pc, cs, c1, c2, p2);
    var jmp := |JumpOver(c2, p2)|;
    var mid := pc + TestSize(cs);
    if i < |x.s| && cs[x.s[i]] {
      TestPassed(cs, x.s, i);
      TestedChoiceEnds(x, p1, p2, opt, fl, mid + |c1|, c2, fuel, i, stack, caps, out);
      Sim(x, mid, p1, false, TestOf(First(cs, false)), fl, fuel, i, stack, caps, out);
    } else {
      TestFailed(x, p1, fuel, i);
      Sim(x, mid + |c1| + jmp, p2, opt, NoTest, fl, fuel, i, stack, caps, out);
    }
    ExecTest(x, pc, cs, TestSize(cs) + |c1| + jmp, i, stack, caps, out);
  }

  // ---- sequence

  lemma {:induction false} SimSeq(x: Program, pc: int, t: Tree, opt: bool, tt: Test, fl: Charset, fuel: nat,
               i: nat, stack: seq<Entry>, caps: seq<Capture>, out: Outcome)
    requires t.TSeq? && Pre(x, pc, t, opt, tt, fl, fuel, i, stack, caps, out)
    ensures Ends(x, Run(pc, i, stack, caps), out)
    decreases fuel, t, 0
  {
    hide Ends, HeadFail, HasCaptures, CheckAux, GenRep, GenNot, GenChoice, CorrectCalls, TestCode, Used, Calls, Resolved;
    var p1, p2 := t.p1, t.p2;
    var f1, t2 := SeqFollow(x.g, x.d, p1, p2, fl), SeqTest(x.g, p1, tt);
    var c1, c2 := Gen(x.g, x.d, p1, false, tt, f1), Gen(x.g, x.d, p2, opt, t2, fl);
    PlacedSplit(x.code, pc, c1, c2, x.env);
    var r1 := Eval(fuel, x.g, p1, x.s, i, true);
    if r1.Match? {
      var r2 := Eval(fuel, x.g, p2, x.s, r1.pos, true);
      FailToTop(stack, caps, r1.caps);
      if r2.Match? {
        assert caps + r1.caps + r2.caps == caps + (r1.caps + r2.caps);
      }
      if FixedLen(x.g, {}, p1) == 0 {
        FixedLenSound(fuel, x.g, p1, x.s, i, true);
      }
      Sim(x, pc + |c1|, p2, opt, t2, fl, fuel, r1.pos, stack, caps + r1.caps, out);
      if !Viable(x.s, r1.pos, f1) {
        if r2.Match? && (r2.pos == r1.pos ==> fl[x.s[r1.pos]]) {
          FirstSound(fuel, x.g, x.d, x.d, p2, x.s, r1.pos, true, fl);
        }
      }
    }
    Sim(x, pc, p1, false, tt, f1, fuel, i, stack, caps, out);
  }

  // ---- choice with a stacked alternative

  lemma {:induction false} SimChoicePartial(x: Program, pc: int, p1: Tree, c1: Code, fuel: nat,
               i: nat, stack: seq<Entry>, caps: seq<Capture>, out: Outcome)
    requires Setting(x, TChoice(p1, TTrue), true, FullSet(), i, stack, caps)
    requires c1 == Gen(x.g, x.d, p1, true, NoTest, FullSet())
    requires Placed(x.code, pc, [IPartialCommit(2), ISlot] + c1, x.env)
    requires Continues(x, Eval(fuel, x.g, TChoice(p1, TTrue), x.s, i, true), pc + 2 + |c1|,
                       true, FullSet(), stack, caps, out)
    ensures Ends(x, Run(pc, i, stack, caps), out)
    decreases fuel, TChoice(p1, TTrue), 0
  {
    hide Ends, Gen, HeadFail, Used, Calls, Resolved;
    PlacedSplit(x.code, pc, [IPartialCommit(2), ISlot], c1, x.env);
    PlacedAt(x, pc, [IPartialCommit(2), ISlot]);
    var rest := stack[1..];
    var moved := [Choice(stack[0].pc, i, |caps|)] + rest;
    assert moved[1..] == rest && [stack[0]] + rest == stack;
    assert caps + [] == caps && caps[..|caps|] == caps;
    Sim(x, pc + 2, p1, true, NoTest, FullSet(), fuel, i, moved, caps, out);
    ExecPartialCommit(x, pc, 2, i, stack[0], rest, caps, out);
  }

  lemma LayoutStackedChoice(x: Program, pc: int, f: First, c1: Code, c2: Code)
    requires Placed(x.code, pc, StackedChoice(f, c1, c2), x.env)
    ensures var a := pc + GuardSize(f);
      && Placed(x.code, pc, Guard(f, GuardSize(f) + |c1| + 4), x.env)
      && At(x, a, IChoice(|c1| + 4))
      && Placed(x.code, a + 2, c1, x.env)
      && At(x, a + 2 + |c1|, ICommit(|c2| + 2))
      && Placed(x.code, a + |c1| + 4, c2, x.env)
    ensures |StackedChoice(f, c1, c2)| == GuardSize(f) + 2 + |c1| + 2 + |c2|
  {
    hide GetFirst, TestCode, Placed, Guard, At;
    var guard, choice, commit := Guard(f, GuardSize(f) + |c1| + 4), [IChoice(|c1| + 4), ISlot], [ICommit(|c2| + 2), ISlot];
    GuardLength(f, GuardSize(f) + |c1| + 4);
    PlacedParts(x, pc, guard, choice, c1, commit, c2);
    PlacedAt(x, pc + |guard|, choice);
    PlacedAt(x, pc + |guard| + 2 + |c1|, commit);
  }

  lemma GuardLength(f: First, off: int)
    ensures |Guard(f, off)| == GuardSize(f)
  {
  }

  /** Five pieces of code behind each other. */
  lemma PlacedParts(x: Program, pc: int, a: Code, b: Code, c: Code, d: Code, e: Code)
    requires Placed(x.code, pc, a + b + c + d + e, x.env)
    ensures Placed(x.code, pc, a, x.env) && Placed(x.code, pc + |a|, b, x.env) && Placed(x.code, pc + |a| + |b|, c, x.env)
    ensures Placed(x.code, pc + |a| + |b| + |c|, d, x.env) && Placed(x.code, pc + |a| + |b| + |c| + |d|, e, x.env)
  {
    hide Placed;
    PlacedSplit(x.code, pc, a + b + c + d, e, x.env);
    PlacedSplit(x.code, pc, a + b + c, d, x.env);
    PlacedSplit(x.code, pc, a + b, c, x.env);
    PlacedSplit(x.code, pc, a, b, x.env);
  }

  /** A guard lets the code behind it run, or jumps when that code is sure to fail. */
  lemma ExecGuard(x: Program, pc: int, p: Tree, f: First, off: int, fuel: nat,
                  i: nat, stack: seq<Entry>, caps: seq<Capture>, out: Outcome)
    requires RulesPlaced(x) && WellFormed(x.g, x.d, p) && i <= |x.s|
    requires f == GetFirst(x.g, x.d, p, FullSet())
    requires Placed(x.code, pc, Guard(f, off), x.env)
    requires TestHolds(TestOf(f), x.s, i) ==> Ends(x, Run(pc + GuardSize(f), i, stack, caps), out)
    requires !Eval(fuel, x.g, p, x.s, i, true).Match? && !f.empty ==> Ends(x, Run(pc + off, i, stack, caps), out)
    ensures Ends(x, Run(pc, i, stack, caps), out)
  {
    hide Ends, GetFirst, TestCode, RulesPlaced, WellFormed, Eval, Used, Calls, Resolved;
    if !f.empty {
      if i < |x.s| && f.set_[x.s[i]] {
        TestPassed(f.set_, x.s, i);
      } else {
        TestFailed(x, p, fuel, i);
      }
      ExecTest(x, pc, f.set_, off, i, stack, caps, out);
    }
  }

  /** Where p1 may end in a stacked choice, the choice may end: at the commit or at the alternative. */
  lemma StackedChoiceEnds(x: Program, p1: Tree, p2: Tree, opt: bool, fl: Charset, commit: int, n2: nat, fuel: nat,
                          i: nat, stack: seq<Entry>, caps: seq<Capture>, out: Outcome)
    requires Setting(x, TChoice(p1, p2), opt, fl, i, stack, caps)
    requires At(x, commit, ICommit(n2 + 2)) && (p2.TTrue? ==> n2 == 0)
    requires Continues(x, Eval(fuel, x.g, TChoice(p1, p2), x.s, i, true), commit + 2 + n2, opt, fl, stack, caps, out)
    requires Eval(fuel, x.g, p1, x.s, i, true).Fail? ==> Ends(x, Run(commit + 2, i, stack, caps), out)
    ensures Continues(x, Eval(fuel, x.g, p1, x.s, i, true), commit, p2.TTrue?, FullSet(),
                      [Choice(commit + 2, i, |caps|)] + stack, caps, out)
  {
    hide Ends, RulesPlaced, WellFormed, CheckAux, FixedLen, HasCaptures, Used, Calls, Resolved;
    var r1 := Eval(fuel, x.g, p1, x.s, i, true);
    var inner := [Choice(commit + 2, i, |caps|)] + stack;
    assert inner[1..] == stack && caps[..|caps|] == caps;
    if r1.Match? {
      if opt {
        SameTop(x, commit + 2 + n2, r1.pos, stack, caps + r1.caps, out);
      }
      forall pos: nat, level: nat {:trigger Choice(commit + 2, pos, level)}
        ensures Ends(x, Run(commit, r1.pos, [Choice(commit + 2, pos, level)] + stack, caps + r1.caps), out)
      {
        ExecCommit(x, commit, n2 + 2, r1.pos, Choice(commit + 2, pos, level), stack, caps + r1.caps, out);
      }
    }
  }

  lemma {:induction false} SimChoiceStacked(x: Program, pc: int, p1: Tree, p2: Tree, opt: bool, fl: Charset,
               f: First, c1: Code, c2: Code, fuel: nat,
               i: nat, stack: seq<Entry>, caps: seq<Capture>, out: Outcome)
    requires Setting(x, TChoice(p1, p2), opt, fl, i, stack, caps)
    requires f == GetFirst(x.g, x.d, p1, FullSet())
    requires c1 == Gen(x.g, x.d, p1, p2.TTrue?, TestOf(f), FullSet())
    requires c2 == Gen(x.g, x.d, p2, opt, NoTest, fl)
    requires Placed(x.code, pc, StackedChoice(f, c1, c2), x.env)
    requires Continues(x, Eval(fuel, x.g, TChoice(p1, p2), x.s, i, true), pc + |StackedChoice(f, c1, c2)|,
                       opt, fl, stack, caps, out)
    ensures Ends(x, Run(pc, i, stack, caps), out)
    decreases fuel, TChoice(p1, p2), 0
  {
    hide Ends, RulesPlaced, Placed, GetFirst, TestCode, GuardSize, Guard, TestSize, TestOf, CheckAux, FixedLen,
      HasCaptures, HeadFail, GenRep, GenChoice, GenNot, FailTo, Gen, Used, Calls, Resolved;
    TrueCode(x.g, x.d, p2, opt, fl);
    LayoutStackedChoice(x, pc, f, c1, c2);
    var a := pc + GuardSize(f);
    var commit := a + 2 + |c1|;
    if Eval(fuel, x.g, p1, x.s, i, true).Fail? {
      Sim(x, commit + 2, p2, opt, NoTest, fl, fuel, i, stack, caps, out);
    }
    StackedChoiceEnds(x, p1, p2, opt, fl, commit, |c2|, fuel, i, stack, caps, out);
    if TestHolds(TestOf(f), x.s, i) {
      Sim(x, a + 2, p1, p2.TTrue?, TestOf(f), FullSet(), fuel, i, [Choice(commit + 2, i, |caps|)] + stack, caps, out);
      ExecChoice(x, a, |c1| + 4, i, stack, caps, out);
    }
    ExecGuard(x, pc, p1, f, GuardSize(f) + |c1| + 4, fuel, i, stack, caps, out);
  }

  // ---- repetition

  /** One turn of the loop for a single character or for any character. */
  lemma CharLoopTurn(x: Program, pc: int, p: Tree, i: nat, stack: seq<Entry>, caps: seq<Capture>, out: Outcome)
    requires (p.TAny? || p.TChar?) && i <= |x.s| && Placed(x.code, pc, RepCharset(p), x.env)
    requires var hit := i < |x.s| && (p.TAny? || x.s[i] == p.c);
      Ends(x, if hit then Run(pc, i + 1, stack, caps) else Run(pc + 5, i, stack, caps), out)
    ensures Ends(x, Run(pc, i, stack, caps), out)
  {
    var c := RepCharset(p);
    assert Realises(x.code, pc + 0, c[0], x.env);
    assert Realises(x.code, pc + 2, c[2], x.env);
    assert Realises(x.code, pc + 3, c[3], x.env);
    if i < |x.s| && (p.TAny? || x.s[i] == p.c) {
      ExecJmp(x, pc + 3, -3, i + 1, stack, caps, out);
      Before(x, Run(pc + 2, i, stack, caps), out);
    }
    Before(x, Run(pc, i, stack, caps), out);
  }

  lemma {:induction false} SimCharLoop(x: Program, pc: int, p: Tree, fuel: nat,
               i: nat, stack: seq<Entry>, caps: seq<Capture>, out: Outcome)
    requires (p.TAny? || p.TChar?) && i <= |x.s| && Placed(x.code, pc, RepCharset(p), x.env)
    requires var r := Eval(fuel, x.g, TRep(p), x.s, i, true);
      r.Match? && Ends(x, Run(pc + 5, r.pos, stack, caps + r.caps), out)
    ensures Ends(x, Run(pc, i, stack, caps), out)
    decreases fuel
  {
    hide Ends, Placed, Used, Calls, Resolved;
    assert caps + [] == caps;
    if Eval(fuel, x.g, p, x.s, i, true).Match? {
      assert Eval(fuel, x.g, TRep(p), x.s, i, true).caps == Eval(fuel - 1, x.g, TRep(p), x.s, i + 1, true).caps;
      SimCharLoop(x, pc, p, fuel - 1, i + 1, stack, caps, out);
    }
    CharLoopTurn(x, pc, p, i, stack, caps, out);
  }

  lemma ExecSpan(x: Program, pc: int, p: Tree, i: nat, stack: seq<Entry>, caps: seq<Capture>, out: Outcome)
    requires p.TSet? && i <= |x.s| && Placed(x.code, pc, RepCharset(p), x.env)
    requires Ends(x, Run(pc + |RepCharset(p)|, SpanEnd(Compact(p.cs), x.s, i), stack, caps), out)
    ensures Ends(x, Run(pc, i, stack, caps), out)
  {
    PlacedAt(x, pc, RepCharset(p));
    hide SpanEnd, Placed;
    Before(x, Run(pc, i, stack, caps), out);
  }

  lemma SimRepChar(x: Program, pc: int, p: Tree, opt: bool, fl: Charset, fuel: nat,
               i: nat, stack: seq<Entry>, caps: seq<Capture>, out: Outcome)
    requires IsCharset(p) && Setting(x, TRep(p), opt, fl, i, stack, caps)
    requires Placed(x.code, pc, RepCharset(p), x.env)
    requires Continues(x, Eval(fuel, x.g, TRep(p), x.s, i, true), pc + |RepCharset(p)|, opt, fl, stack, caps, out)
    ensures Ends(x, Run(pc, i, stack, caps), out)
  {
    hide Ends, RulesPlaced, Gen, GetFirst, CheckAux, FixedLen, HasCaptures, WellFormed, Used, Calls;
    var r := Eval(fuel, x.g, TRep(p), x.s, i, true);
    RepNeverFails(fuel, x.g, p, x.s, i);
    assert caps + [] == caps;
    if opt {
      SameTop(x, pc + |RepCharset(p)|, r.pos, stack, caps + r.caps, out);
    }
    if p.TSet? {
      SpanSound(fuel, x.g, p.cs, x.s, i);
      ExecSpan(x, pc, p, i, stack, caps, out);
    } else if p.TAny? || p.TChar? {
      SimCharLoop(x, pc, p, fuel, i, stack, caps, out);
    }
  }

  lemma {:induction false} SpanSound(fuel: nat, g: Grammar, cs: Charset, s: Subject, i: nat)
    requires i <= |s| && !Eval(fuel, g, TRep(TSet(cs)), s, i, true).Out?
    ensures Eval(fuel, g, TRep(TSet(cs)), s, i, true) == Match(SpanEnd(Compact(cs), s, i), [])
    decreases fuel
  {
    if i < |s| {
      CompactSound(cs, s[i]);
      if cs[s[i]] {
        SpanSound(fuel - 1, g, cs, s, i + 1);
      }
    }
  }

  lemma LayoutTestedLoop(x: Program, pc: int, cs: Charset, c: Code)
    requires Placed(x.code, pc, TestedLoop(cs, c), x.env)
    ensures Placed(x.code, pc, TestCode(cs, TestSize(cs) + |c| + 2), x.env)
    ensures Placed(x.code, pc + TestSize(cs), c, x.env)
    ensures At(x, pc + TestSize(cs) + |c|, IJmp(-(TestSize(cs) + |c|)))
    ensures |TestedLoop(cs, c)| == TestSize(cs) + |c| + 2
  {
    hide GetFirst, TestCode;
    var test, jmp := TestCode(cs, TestSize(cs) + |c| + 2), [IJmp(-(TestSize(cs) + |c|)), ISlot];
    PlacedSplit(x.code, pc, test + c, jmp, x.env);
    PlacedSplit(x.code, pc, test, c, x.env);
    PlacedAt(x, pc + TestSize(cs) + |c|, jmp);
  }

  /** With the test passed, a failing turn means that what follows the loop fails as well. */
  lemma RepByTestSound(x: Program, p: Tree, fl: Charset, fuel: nat, i: nat)
    requires RepByTest(x.g, x.d, p, fl) && i < |x.s|
    requires GetFirst(x.g, x.d, p, FullSet()).set_[x.s[i]]
    requires Eval(fuel, x.g, p, x.s, i, true).Fail?
    ensures !Viable(x.s, i, fl)
  {
    if HeadFail(x.g, x.d, p) {
      HeadFailSound(fuel, x.g, x.d, p, x.s, i, true);
    }
  }

  /** After one turn, the repetition goes on from where the turn ended. */
  lemma TurnTaken(x: Program, p: Tree, pc: int, opt: bool, fl: Charset, fuel: nat,
                  i: nat, stack: seq<Entry>, caps: seq<Capture>, out: Outcome)
    requires i <= |x.s| && (opt ==> |stack| > 0) && LevelsBelow(stack, |caps|)
    requires Eval(fuel, x.g, p, x.s, i, true).Match?
    requires Continues(x, Eval(fuel, x.g, TRep(p), x.s, i, true), pc, opt, fl, stack, caps, out)
    ensures fuel > 0
    ensures var r := Eval(fuel, x.g, p, x.s, i, true);
      Continues(x, Eval(fuel - 1, x.g, TRep(p), x.s, r.pos, true), pc, opt, fl, stack, caps + r.caps, out)
  {
    hide Ends;
    var r1 := Eval(fuel, x.g, p, x.s, i, true);
    assert fuel > 0;
    var r2 := Eval(fuel - 1, x.g, TRep(p), x.s, r1.pos, true);
    assert r2.Match? ==> caps + r1.caps + r2.caps == caps + (r1.caps + r2.caps);
    FailToTop(stack, caps, r1.caps);
  }

  lemma {:induction false} SimRepTest(x: Program, pc: int, p: Tree, opt: bool, fl: Charset, cs: Charset, c: Code, fuel: nat,
               i: nat, stack: seq<Entry>, caps: seq<Capture>, out: Outcome)
    requires Setting(x, TRep(p), opt, fl, i, stack, caps) && RepByTest(x.g, x.d, p, fl)
    requires cs == GetFirst(x.g, x.d, p, FullSet()).set_
    requires c == Gen(x.g, x.d, p, false, TestOf(First(cs, false)), FullSet())
    requires Placed(x.code, pc, TestedLoop(cs, c), x.env)
    requires Continues(x, Eval(fuel, x.g, TRep(p), x.s, i, true), pc + |TestedLoop(cs, c)|, opt, fl, stack, caps, out)
    ensures Ends(x, Run(pc, i, stack, caps), out)
    decreases fuel, TRep(p), 0
  {
    hide Ends, RulesPlaced, Placed, GetFirst, TestCode, GuardSize, Guard, TestSize, TestOf, CheckAux, FixedLen,
      HasCaptures, Gen, HeadFail, Used, Calls, Resolved;
    LayoutTestedLoop(x, pc, cs, c);
    var n := TestSize(cs) + |c|;
    var mid := pc + TestSize(cs);
    var r1 := Eval(fuel, x.g, p, x.s, i, true);
    assert caps + [] == caps;
    if i < |x.s| && cs[x.s[i]] {
      TestPassed(cs, x.s, i);
      if r1.Match? {
        TurnTaken(x, p, pc + n + 2, opt, fl, fuel, i, stack, caps, out);
        SimRepTest(x, pc, p, opt, fl, cs, c, fuel - 1, r1.pos, stack, caps + r1.caps, out);
        ExecJmp(x, pc + n, -n, r1.pos, stack, caps + r1.caps, out);
      } else {
        RepByTestSound(x, p, fl, fuel, i);
      }
      Sim(x, mid, p, false, TestOf(First(cs, false)), FullSet(), fuel, i, stack, caps, out);
    } else {
      TestFailed(x, p, fuel, i);
      if opt {
        SameTop(x, pc + n + 2, i, stack, caps, out);
      }
    }
    ExecTest(x, pc, cs, n + 2, i, stack, caps, out);
  }

  lemma LayoutStackedLoop(x: Program, pc: int, f: First, c: Code, opt: bool)
    requires Placed(x.code, pc, StackedLoop(f, c, opt), x.env)
    ensures var a := pc + GuardSize(f);
      && Placed(x.code, pc, Guard(f, GuardSize(f) + |c| + 4), x.env)
      && At(x, a, if opt then IPartialCommit(2) else IChoice(|c| + 4))
      && Placed(x.code, a + 2, c, x.env)
      && At(x, a + 2 + |c|, IPartialCommit(-|c|))
    ensures |StackedLoop(f, c, opt)| == GuardSize(f) + |c| + 4
  {
    hide GetFirst, TestCode, Placed, Guard, At;
    var guard := Guard(f, GuardSize(f) + |c| + 4);
    var choice := [if opt then IPartialCommit(2) else IChoice(|c| + 4), ISlot];
    var commit := [IPartialCommit(-|c|), ISlot];
    GuardLength(f, GuardSize(f) + |c| + 4);
    assert guard + choice + c + commit + [] == guard + choice + c + commit;
    PlacedParts(x, pc, guard, choice, c, commit, []);
    PlacedAt(x, pc + |guard|, choice);
    PlacedAt(x, pc + |guard| + 2 + |c|, commit);
  }

  /** The loop of a repetition whose alternative, at target, follows the current position. */
  lemma {:induction false} SimLoop(x: Program, pc: int, target: int, p: Tree, c: Code, fuel: nat,
               i: nat, stack: seq<Entry>, caps: seq<Capture>, out: Outcome)
    requires Setting(x, TRep(p), false, FullSet(), i, stack, caps)
    requires c == Gen(x.g, x.d, p, false, NoTest, FullSet())
    requires Placed(x.code, pc, c, x.env) && At(x, pc + |c|, IPartialCommit(-|c|))
    requires var r := Eval(fuel, x.g, TRep(p), x.s, i, true);
      r.Match? && Ends(x, Run(target, r.pos, stack, caps + r.caps), out)
    ensures Ends(x, Run(pc, i, [Choice(target, i, |caps|)] + stack, caps), out)
    decreases fuel, TRep(p), 0
  {
    hide Ends, RulesPlaced, Placed, GetFirst, TestCode, Guard, TestSize, CheckAux, FixedLen, HasCaptures, HeadFail,
      GenRep, GenChoice, GenNot, Gen, Used, Calls, Resolved;
    var inner := [Choice(target, i, |caps|)] + stack;
    var r1 := Eval(fuel, x.g, p, x.s, i, true);
    assert inner[1..] == stack && caps + [] == caps && caps[..|caps|] == caps;
    if r1.Match? {
      var r2 := Eval(fuel - 1, x.g, TRep(p), x.s, r1.pos, true);
      assert caps + r1.caps + r2.caps == caps + (r1.caps + r2.caps);
      SimLoop(x, pc, target, p, c, fuel - 1, r1.pos, stack, caps + r1.caps, out);
      ExecPartialCommit(x, pc + |c|, -|c|, r1.pos, Choice(target, i, |caps|), stack, caps + r1.caps, out);
    }
    Sim(x, pc, p, false, NoTest, FullSet(), fuel, i, inner, caps, out);
  }

  lemma {:induction false} SimRepStacked(x: Program, pc: int, p: Tree, opt: bool, fl: Charset, f: First, c: Code, fuel: nat,
               i: nat, stack: seq<Entry>, caps: seq<Capture>, out: Outcome)
    requires Setting(x, TRep(p), opt, fl, i, stack, caps)
    requires f == GetFirst(x.g, x.d, p, FullSet())
    requires c == Gen(x.g, x.d, p, false, NoTest, FullSet())
    requires Placed(x.code, pc, StackedLoop(f, c, opt), x.env)
    requires Continues(x, Eval(fuel, x.g, TRep(p), x.s, i, true), pc + |StackedLoop(f, c, opt)|, opt, fl, stack, caps, out)
    ensures Ends(x, Run(pc, i, stack, caps), out)
    decreases fuel, TRep(p), 1
  {
    hide Ends, RulesPlaced, Placed, GetFirst, TestCode, GuardSize, Guard, TestSize, TestOf, CheckAux, FixedLen,
      HasCaptures, Gen, HeadFail, Used, Calls, Resolved;
    LayoutStackedLoop(x, pc, f, c, opt);
    var a := pc + GuardSize(f);
    var end := a + |c| + 4;
    var r := Eval(fuel, x.g, TRep(p), x.s, i, true);
    RepNeverFails(fuel, x.g, p, x.s, i);
    assert caps + [] == caps;
    if opt {
      var rest := stack[1..];
      assert [stack[0]] + rest == stack;
      SameTop(x, end, r.pos, stack, caps + r.caps, out);
      SimLoop(x, a + 2, stack[0].pc, p, c, fuel, i, rest, caps, out);
      ExecPartialCommit(x, a, 2, i, stack[0], rest, caps, out);
    } else {
      SimLoop(x, a + 2, end, p, c, fuel, i, stack, caps, out);
      ExecChoice(x, a, |c| + 4, i, stack, caps, out);
    }
    ExecGuard(x, pc, p, f, GuardSize(f) + |c| + 4, fuel, i, stack, caps, out);
  }

  lemma RepNeverFails(fuel: nat, g: Grammar, p: Tree, s: Subject, i: nat)
    requires i <= |s|
    ensures !Eval(fuel, g, TRep(p), s, i, true).Fail?
  {
    NoFailSound(fuel, g, 0, TRep(p), s, i, true);
  }

  // ---- predicates and captures

  lemma LayoutStackedNot(x: Program, pc: int, f: First, c: Code)
    requires Placed(x.code, pc, StackedNot(f, c), x.env)
    ensures var a := pc + GuardSize(f);
      && Placed(x.code, pc, Guard(f, GuardSize(f) + |c| + 3), x.env)
      && At(x, a, IChoice(|c| + 3))
      && Placed(x.code, a + 2, c, x.env)
      && At(x, a + 2 + |c|, IFailTwice)
    ensures |StackedNot(f, c)| == GuardSize(f) + |c| + 3
  {
    hide GetFirst, TestCode, Placed, Guard, At;
    var guard, choice := Guard(f, GuardSize(f) + |c| + 3), [IChoice(|c| + 3), ISlot];
    GuardLength(f, GuardSize(f) + |c| + 3);
    assert guard + choice + c + [IFailTwice] + [] == guard + choice + c + [IFailTwice];
    PlacedParts(x, pc, guard, choice, c, [IFailTwice], []);
    PlacedAt(x, pc + |guard|, choice);
    PlacedAt(x, pc + |guard| + 2 + |c|, [IFailTwice]);
  }

  lemma {:induction false} SimNot(x: Program, pc: int, p: Tree, opt: bool, fl: Charset, f: First, c: Code, fuel: nat,
               i: nat, stack: seq<Entry>, caps: seq<Capture>, out: Outcome)
    requires Setting(x, TNot(p), opt, fl, i, stack, caps)
    requires f == GetFirst(x.g, x.d, p, FullSet())
    requires c == Gen(x.g, x.d, p, false, NoTest, FullSet())
    requires Placed(x.code, pc, StackedNot(f, c), x.env)
    requires Continues(x, Eval(fuel, x.g, TNot(p), x.s, i, true), pc + |StackedNot(f, c)|, opt, fl, stack, caps, out)
    ensures Ends(x, Run(pc, i, stack, caps), out)
    decreases fuel, TNot(p), 0
  {
    hide Ends, RulesPlaced, Placed, GetFirst, TestCode, GuardSize, Guard, TestSize, TestOf, CheckAux, FixedLen,
      HasCaptures, HeadFail, GenRep, GenChoice, GenNot, Gen, Used, Calls, Resolved;
    LayoutStackedNot(x, pc, f, c);
    var a := pc + GuardSize(f);
    var end := a + |c| + 3;
    var inner := [Choice(end, i, |caps|)] + stack;
    var r := Eval(fuel, x.g, p, x.s, i, true);
    assert caps + [] == caps && caps[..|caps|] == caps;
    if r.Match? {
      FailToTop(stack, caps, r.caps);
      ExecFailTwice(x, a + 2 + |c|, r.pos, inner[0], stack, caps + r.caps, out);
    } else if opt {
      SameTop(x, end, i, stack, caps, out);
    }
    Sim(x, a + 2, p, false, NoTest, FullSet(), fuel, i, inner, caps, out);
    ExecChoice(x, a, |c| + 3, i, stack, caps, out);
    ExecGuard(x, pc, p, f, GuardSize(f) + |c| + 3, fuel, i, stack, caps, out);
  }

  lemma SimNotTest(x: Program, pc: int, p: Tree, opt: bool, fl: Charset, f: First, fuel: nat,
               i: nat, stack: seq<Entry>, caps: seq<Capture>, out: Outcome)
    requires Setting(x, TNot(p), opt, fl, i, stack, caps) && HeadFail(x.g, x.d, p)
    requires f == GetFirst(x.g, x.d, p, FullSet())
    requires Placed(x.code, pc, TestedNot(f), x.env)
    requires Continues(x, Eval(fuel, x.g, TNot(p), x.s, i, true), pc + |TestedNot(f)|, opt, fl, stack, caps, out)
    ensures Ends(x, Run(pc, i, stack, caps), out)
  {
    hide Ends, GetFirst, TestCode, Used, Calls, Resolved;
    var a := pc + GuardSize(f);
    HeadFailNotEmpty(x.g, x.d, p, FullSet());
    PlacedSplit(x.code, pc, Guard(f, GuardSize(f) + 1), [IFail], x.env);
    PlacedAt(x, a, [IFail]);
    assert caps + [] == caps;
    if i < |x.s| && f.set_[x.s[i]] {
      HeadFailSound(fuel, x.g, x.d, p, x.s, i, true);
      ExecFail(x, a, i, stack, caps, out);
    } else {
      TestFailed(x, p, fuel, i);
      if opt {
        SameTop(x, a + 1, i, stack, caps, out);
      }
    }
    ExecTest(x, pc, f.set_, GuardSize(f) + 1, i, stack, caps, out);
  }

  lemma {:induction false} SimAndLength(x: Program, pc: int, p: Tree, opt: bool, tt: Test, fl: Charset, c: Code, fuel: nat,
               i: nat, stack: seq<Entry>, caps: seq<Capture>, out: Outcome)
    requires Setting(x, TAnd(p), opt, fl, i, stack, caps) && TestHolds(tt, x.s, i) && AndByLength(x.g, p)
    requires c == Gen(x.g, x.d, p, false, tt, FullSet())
    requires Placed(x.code, pc, c + StepBack(FixedLen(x.g, {}, p)), x.env)
    requires Continues(x, Eval(fuel, x.g, TAnd(p), x.s, i, true), pc + |c + StepBack(FixedLen(x.g, {}, p))|,
                       opt, fl, stack, caps, out)
    ensures Ends(x, Run(pc, i, stack, caps), out)
    decreases fuel, TAnd(p), 0
  {
    hide Ends, RulesPlaced, Placed, GetFirst, TestCode, Guard, TestSize, CheckAux, HeadFail, GenRep, GenChoice, GenNot,
      FailTo, Gen, Used, Calls, Resolved;
    var n := FixedLen(x.g, {}, p);
    PlacedSplit(x.code, pc, c, StepBack(n), x.env);
    var r := Eval(fuel, x.g, p, x.s, i, true);
    assert caps + [] == caps;
    if r.Match? {
      FixedLenSound(fuel, x.g, p, x.s, i, true);
      CapturesSound(fuel, x.g, p, x.s, i, true);
      if opt {
        SameTop(x, pc + |c| + |StepBack(n)|, i, stack, caps, out);
      }
      if n > 0 {
        PlacedAt(x, pc + |c|, StepBack(n));
        ExecBehind(x, pc + |c|, n, r.pos, stack, caps, out);
      }
    }
    Sim(x, pc, p, false, tt, FullSet(), fuel, i, stack, caps, out);
  }

  lemma {:induction false} SimAnd(x: Program, pc: int, p: Tree, opt: bool, tt: Test, fl: Charset, c: Code, fuel: nat,
               i: nat, stack: seq<Entry>, caps: seq<Capture>, out: Outcome)
    requires Setting(x, TAnd(p), opt, fl, i, stack, caps) && TestHolds(tt, x.s, i)
    requires c == Gen(x.g, x.d, p, false, tt, FullSet())
    requires Placed(x.code, pc, StackedAnd(c), x.env)
    requires Continues(x, Eval(fuel, x.g, TAnd(p), x.s, i, true), pc + |StackedAnd(c)|, opt, fl, stack, caps, out)
    ensures Ends(x, Run(pc, i, stack, caps), out)
    decreases fuel, TAnd(p), 0
  {
    hide Ends, RulesPlaced, Placed, GetFirst, TestCode, GuardSize, Guard, TestSize, TestOf, CheckAux, FixedLen,
      HasCaptures, Gen, HeadFail, Used, Calls, Resolved;
    var choice, commit := [IChoice(|c| + 4), ISlot], [IBackCommit(3), ISlot];
    var fail := pc + |c| + 4;
    PlacedSplit(x.code, pc, choice + c + commit, [IFail], x.env);
    PlacedSplit(x.code, pc, choice + c, commit, x.env);
    PlacedSplit(x.code, pc, choice, c, x.env);
    PlacedAt(x, pc, choice);
    PlacedAt(x, pc + 2 + |c|, commit);
    PlacedAt(x, fail, [IFail]);
    var inner := [Choice(fail, i, |caps|)] + stack;
    var r := Eval(fuel, x.g, p, x.s, i, true);
    assert inner[1..] == stack && caps + [] == caps && caps[..|caps|] == caps;
    if r.Match? {
      if opt {
        SameTop(x, fail + 1, i, stack, caps, out);
      }
      assert (caps + r.caps)[..|caps|] == caps;
      ExecBackCommit(x, pc + 2 + |c|, 3, r.pos, inner[0], stack, caps + r.caps, out);
    } else {
      ExecFail(x, fail, i, stack, caps, out);
    }
    Sim(x, pc + 2, p, false, tt, FullSet(), fuel, i, inner, caps, out);
    ExecChoice(x, pc, |c| + 4, i, stack, caps, out);
  }

  lemma {:induction false} SimBehind(x: Program, pc: int, n: nat, p: Tree, opt: bool, fl: Charset, c: Code, fuel: nat,
               i: nat, stack: seq<Entry>, caps: seq<Capture>, out: Outcome)
    requires Setting(x, TBehind(n, p), opt, fl, i, stack, caps)
    requires c == Gen(x.g, x.d, p, false, NoTest, FullSet())
    requires Placed(x.code, pc, StepBack(n) + c, x.env)
    requires Continues(x, Eval(fuel, x.g, TBehind(n, p), x.s, i, true), pc + |StepBack(n) + c|, opt, fl, stack, caps, out)
    ensures Ends(x, Run(pc, i, stack, caps), out)
    decreases fuel, TBehind(n, p), 0
  {
    hide Ends, RulesPlaced, Placed, GetFirst, TestCode, Guard, TestSize, CheckAux, HeadFail, GenRep, GenChoice, GenNot,
      FailTo, Gen, Used, Calls, Resolved;
    var a := pc + |StepBack(n)|;
    PlacedSplit(x.code, pc, StepBack(n), c, x.env);
    assert caps + [] == caps;
    if n <= i {
      var r := Eval(fuel, x.g, p, x.s, i - n, true);
      if r.Match? {
        FixedLenSound(fuel, x.g, p, x.s, i - n, true);
        CapturesSound(fuel, x.g, p, x.s, i - n, true);
        if opt {
          SameTop(x, a + |c|, i, stack, caps, out);
        }
      }
      Sim(x, a, p, false, NoTest, FullSet(), fuel, i - n, stack, caps, out);
    }
    if n > 0 {
      PlacedAt(x, pc, StepBack(n));
      ExecBehind(x, pc, n, i, stack, caps, out);
    }
  }

  lemma {:induction false} SimCaptureShort(x: Program, pc: int, kind: nat, p: Tree, opt: bool, tt: Test, fl: Charset, c: Code,
               fuel: nat, i: nat, stack: seq<Entry>, caps: seq<Capture>, out: Outcome)
    requires Setting(x, TCapture(kind, p), opt, fl, i, stack, caps) && TestHolds(tt, x.s, i) && ShortBody(x.g, p)
    requires c == Gen(x.g, x.d, p, false, tt, fl)
    requires Placed(x.code, pc, c + [IFullCapture(kind, FixedLen(x.g, {}, p))], x.env)
    requires Continues(x, Eval(fuel, x.g, TCapture(kind, p), x.s, i, true), pc + |c| + 1, opt, fl, stack, caps, out)
    ensures Ends(x, Run(pc, i, stack, caps), out)
    decreases fuel, TCapture(kind, p), 0
  {
    hide Ends, Gen, HeadFail, Used, Calls, Resolved;
    var full := IFullCapture(kind, FixedLen(x.g, {}, p));
    PlacedSplit(x.code, pc, c, [full], x.env);
    PlacedAt(x, pc + |c|, [full]);
    var r := Eval(fuel, x.g, p, x.s, i, true);
    if r.Match? {
      FixedLenSound(fuel, x.g, p, x.s, i, true);
      var e := Full(kind, i, r.pos - i);
      assert caps + r.caps + [e] == caps + (r.caps + [e]);
      if opt {
        SameTop(x, pc + |c| + 1, r.pos, stack, caps + r.caps + [e], out);
      }
      ExecCapture(x, pc + |c|, full, r.pos, stack, caps + r.caps, e, out);
    }
    Sim(x, pc, p, false, tt, fl, fuel, i, stack, caps, out);
  }

  lemma {:induction false} SimCapture(x: Program, pc: int, kind: nat, p: Tree, opt: bool, tt: Test, fl: Charset, c: Code,
               fuel: nat, i: nat, stack: seq<Entry>, caps: seq<Capture>, out: Outcome)
    requires Setting(x, TCapture(kind, p), opt, fl, i, stack, caps) && TestHolds(tt, x.s, i) && !ShortBody(x.g, p)
    requires c == Gen(x.g, x.d, p, false, tt, fl)
    requires Placed(x.code, pc, [IOpenCapture(kind)] + c + [ICloseCapture], x.env)
    requires Continues(x, Eval(fuel, x.g, TCapture(kind, p), x.s, i, true), pc + |c| + 2, opt, fl, stack, caps, out)
    ensures Ends(x, Run(pc, i, stack, caps), out)
    decreases fuel, TCapture(kind, p), 0
  {
    hide Ends, RulesPlaced, Placed, CheckAux, FixedLen, HasCaptures, GetFirst, Gen, HeadFail, Used, Calls, Resolved;
    PlacedSplit(x.code, pc, [IOpenCapture(kind)] + c, [ICloseCapture], x.env);
    PlacedSplit(x.code, pc, [IOpenCapture(kind)], c, x.env);
    PlacedAt(x, pc, [IOpenCapture(kind)]);
    PlacedAt(x, pc + 1 + |c|, [ICloseCapture]);
    var r := Eval(fuel, x.g, p, x.s, i, true);
    var begun := caps + [Open(kind, i)];
    FailToTop(stack, caps, [Open(kind, i)]);
    if r.Match? {
      var e := Close(r.pos);
      assert begun + r.caps + [e] == caps + ([Open(kind, i)] + r.caps + [e]);
      if opt {
        SameTop(x, pc + |c| + 2, r.pos, stack, begun + r.caps + [e], out);
      }
      ExecCapture(x, pc + 1 + |c|, ICloseCapture, r.pos, stack, begun + r.caps, e, out);
    }
    Sim(x, pc + 1, p, false, tt, fl, fuel, i, stack, begun, out);
    ExecCapture(x, pc, IOpenCapture(kind), i, stack, caps, Open(kind, i), out);
  }

  lemma {:induction false} SimGrammar(x: Program, pc: int, t: Tree, opt: bool, tt: Test, fl: Charset, fuel: nat,
               i: nat, stack: seq<Entry>, caps: seq<Capture>, out: Outcome)
    requires t.TGrammar? && Pre(x, pc, t, opt, tt, fl, fuel, i, stack, caps, out)
    ensures Ends(x, Run(pc, i, stack, caps), out)
    decreases fuel, t, 0
  {
    hide Ends, Gen, GetFirst, CheckAux, FixedLen, HasCaptures, HeadFail, Placed, CorrectCalls, GenRules;
    var rules := t.rules;
    var y := Inner(x, pc, t);
    var n := |GenRules(rules, x.d, t, |rules|)|;
    GrammarPlaced(x, pc, t, opt, tt, fl);
    var body := Gen(rules, x.d, rules[0], false, NoTest, FullSet());
    var ret := y.env[0] + |body|;
    PlacedSplit(x.code, y.env[0], body, [IRet], y.env);
    PlacedAt(y, ret, [IRet]);
    var r := Eval(fuel, rules, rules[0], x.s, i, true);
    var inner := [Return(pc + 2)] + stack;
    assert inner[1..] == stack;
    if r.Match? {
      if opt {
        SameTop(x, pc + 4 + n, r.pos, stack, caps + r.caps, out);
      }
      ExecJmp(x, pc + 2, n + 2, r.pos, stack, caps + r.caps, out);
      ExecReturn(x, ret, r.pos, pc + 2, stack, caps + r.caps, out);
    }
    assert Used(rules, 0);
    SameEnds(x, y, out);
    Sim(y, y.env[0], rules[0], false, NoTest, FullSet(), fuel, i, inner, caps, out);
    ExecCall(x, pc, 4, i, stack, caps, out);
  }

  // ---- putting the cases together

  lemma {:induction false} SimChoice(x: Program, pc: int, t: Tree, opt: bool, tt: Test, fl: Charset, fuel: nat,
               i: nat, stack: seq<Entry>, caps: seq<Capture>, out: Outcome)
    requires t.TChoice? && Pre(x, pc, t, opt, tt, fl, fuel, i, stack, caps, out)
    ensures Ends(x, Run(pc, i, stack, caps), out)
    decreases fuel, t, 1
  {
    hide Ends, RulesPlaced, Placed, GetFirst, TestOf, CheckAux, FixedLen, HasCaptures, ByTest, Continues, Eval, GenRep,
      GenNot, HeadFail, TestCode, Resolved, Calls, Used, Gen, GenChoice, TestedChoice, StackedChoice, TestedLoop,
      StackedLoop;
    var p1, p2 := t.p1, t.p2;
    var f := GetFirst(x.g, x.d, p1, FullSet());
    ChoiceCode(x.g, x.d, p1, p2, opt, tt, fl);
    if ByTest(x.g, x.d, p1, p2, fl) {
      var c1 := Gen(x.g, x.d, p1, false, TestOf(First(f.set_, false)), fl);
      SimChoiceTest(x, pc, p1, p2, opt, fl, f.set_, c1, Gen(x.g, x.d, p2, opt, NoTest, fl), fuel, i, stack, caps, out);
    } else if opt && p2.TTrue? {
      SimChoicePartial(x, pc, p1, Gen(x.g, x.d, p1, true, NoTest, FullSet()), fuel, i, stack, caps, out);
    } else {
      var c1 := Gen(x.g, x.d, p1, p2.TTrue?, TestOf(f), FullSet());
      SimChoiceStacked(x, pc, p1, p2, opt, fl, f, c1, Gen(x.g, x.d, p2, opt, NoTest, fl), fuel, i, stack, caps, out);
    }
  }

  lemma {:induction false} SimRep(x: Program, pc: int, t: Tree, opt: bool, tt: Test, fl: Charset, fuel: nat,
               i: nat, stack: seq<Entry>, caps: seq<Capture>, out: Outcome)
    requires t.TRep? && Pre(x, pc, t, opt, tt, fl, fuel, i, stack, caps, out)
    ensures Ends(x, Run(pc, i, stack, caps), out)
    decreases fuel, t, 2
  {
    hide Ends, RulesPlaced, Placed, GetFirst, TestOf, CheckAux, FixedLen, HasCaptures, RepByTest, Continues, Eval,
      GenNot, GenChoice, HeadFail, TestCode, Resolved, Calls, Used, Gen, GenRep, TestedChoice, StackedChoice,
      TestedLoop, StackedLoop;
    var p := t.p;
    var f := GetFirst(x.g, x.d, p, FullSet());
    RepCode(x.g, x.d, p, opt, tt, fl);
    if IsCharset(p) {
      SimRepChar(x, pc, p, opt, fl, fuel, i, stack, caps, out);
    } else if RepByTest(x.g, x.d, p, fl) {
      var c := Gen(x.g, x.d, p, false, TestOf(First(f.set_, false)), FullSet());
      SimRepTest(x, pc, p, opt, fl, f.set_, c, fuel, i, stack, caps, out);
    } else {
      SimRepStacked(x, pc, p, opt, fl, f, Gen(x.g, x.d, p, false, NoTest, FullSet()), fuel, i, stack, caps, out);
    }
  }

  lemma {:induction false} SimPredicate(x: Program, pc: int, t: Tree, opt: bool, tt: Test, fl: Charset, fuel: nat,
               i: nat, stack: seq<Entry>, caps: seq<Capture>, out: Outcome)
    requires (t.TNot? || t.TAnd? || t.TBehind? || t.TCapture?) && Pre(x, pc, t, opt, tt, fl, fuel, i, stack, caps, out)
    ensures Ends(x, Run(pc, i, stack, caps), out)
    decreases fuel, t, 1
  {
    hide Ends, RulesPlaced, Placed, GetFirst, CheckAux, FixedLen, HasCaptures, Continues, Eval, GenRep, GenChoice,
      HeadFail, TestCode, Resolved, Calls, Used;
    var p := t.p;
    match t
    case TNot(_) =>
      var f := GetFirst(x.g, x.d, p, FullSet());
      assert Gen(x.g, x.d, t, opt, tt, fl) == GenNot(x.g, x.d, p);
      if HeadFail(x.g, x.d, p) {
        SimNotTest(x, pc, p, opt, fl, f, fuel, i, stack, caps, out);
      } else {
        SimNot(x, pc, p, opt, fl, f, Gen(x.g, x.d, p, false, NoTest, FullSet()), fuel, i, stack, caps, out);
      }
    case TAnd(_) =>
      var c := Gen(x.g, x.d, p, false, tt, FullSet());
      if AndByLength(x.g, p) {
        SimAndLength(x, pc, p, opt, tt, fl, c, fuel, i, stack, caps, out);
      } else {
        SimAnd(x, pc, p, opt, tt, fl, c, fuel, i, stack, caps, out);
      }
    case TBehind(n, _) =>
      SimBehind(x, pc, n, p, opt, fl, Gen(x.g, x.d, p, false, NoTest, FullSet()), fuel, i, stack, caps, out);
    case TCapture(kind, _) =>
      var c := Gen(x.g, x.d, p, false, tt, fl);
      if ShortBody(x.g, p) {
        SimCaptureShort(x, pc, kind, p, opt, tt, fl, c, fuel, i, stack, caps, out);
      } else {
        SimCapture(x, pc, kind, p, opt, tt, fl, c, fuel, i, stack, caps, out);
      }
  }

  /** The machine, started at the code of t, ends as it would from where t's meaning says. */
  lemma {:induction false} Sim(x: Program, pc: int, t: Tree, opt: bool, tt: Test, fl: Charset, fuel: nat,
               i: nat, stack: seq<Entry>, caps: seq<Capture>, out: Outcome)
    requires Pre(x, pc, t, opt, tt, fl, fuel, i, stack, caps, out)
    ensures Ends(x, Run(pc, i, stack, caps), out)
    decreases fuel, t, 3
  {
    hide Ends, Used, Calls, Resolved;
    match t
    case TChar(_) => SimChar(x, pc, t, opt, tt, fl, fuel, i, stack, caps, out);
    case TSet(_) => SimChar(x, pc, t, opt, tt, fl, fuel, i, stack, caps, out);
    case TAny => SimChar(x, pc, t, opt, tt, fl, fuel, i, stack, caps, out);
    case TFalse => SimChar(x, pc, t, opt, tt, fl, fuel, i, stack, caps, out);
    case TTrue =>
      assert caps + [] == caps;
      if opt {
        SameTop(x, pc, i, stack, caps, out);
      }
    case TSeq(_, _) => SimSeq(x, pc, t, opt, tt, fl, fuel, i, stack, caps, out);
    case TChoice(_, _) => SimChoice(x, pc, t, opt, tt, fl, fuel, i, stack, caps, out);
    case TRep(_) => SimRep(x, pc, t, opt, tt, fl, fuel, i, stack, caps, out);
    case TCall(_) => SimCall(x, pc, t, opt, tt, fl, fuel, i, stack, caps, out);
    case TGrammar(_) => SimGrammar(x, pc, t, opt, tt, fl, fuel, i, stack, caps, out);
    case _ => SimPredicate(x, pc, t, opt, tt, fl, fuel, i, stack, caps, out);
  }

  // ---- the whole pattern

  /** The code of a complete pattern before peephole. */
  function WholeCode(d: nat, t: Tree): Code { Gen([], d, t, false, NoTest, FullSet()) + [IEnd] }

  function OutcomeOf(r: Result): Outcome {
    if r.Match? then Matched(r.pos, r.caps) else NoMatch
  }

  lemma WholePlaced(d: nat, t: Tree)
    requires WellFormed([], d, t)
    ensures Placed(WholeCode(d, t), 0, Gen([], d, t, false, NoTest, FullSet()), [])
  {
    hide Gen;
    WellFormedResolved(0, d, t);
    GenFine([], d, t, false, NoTest, FullSet(), 0);
  }

  /** Running the emitted code from the initial state gives what the pattern means. */
  lemma CodeCorrect(d: nat, t: Tree, s: Subject, i: nat, fuel: nat)
    requires WellFormed([], d, t) && i <= |s| && !Eval(fuel, [], t, s, i, true).Out?
    ensures Halts(WholeCode(d, t), s, Start(i), OutcomeOf(Eval(fuel, [], t, s, i, true)))
  {
    hide Placed, Gen, Halts;
    var c := Gen([], d, t, false, NoTest, FullSet());
    var x := Program(WholeCode(d, t), s, [], d, []);
    var r := Eval(fuel, [], t, s, i, true);
    var out := OutcomeOf(r);
    var stack := [Choice(GIVEUP, i, 0)];
    WholePlaced(d, t);
    HaltsNow(x.code, s, out);
    if r.Match? {
      assert [] + r.caps == r.caps;
      Before(x, Run(|c|, r.pos, stack, r.caps), out);
    } else {
      assert FailTo(stack, []) == Run(GIVEUP, i, [], []);
      Before(x, Run(GIVEUP, i, [], []), out);
    }
    Sim(x, 0, t, false, NoTest, FullSet(), fuel, i, stack, [], out);
  }

  lemma {:induction false} WellFormedResolved(n: nat, d: nat, t: Tree)
    requires WellFormed([], d, t)
    ensures Resolved(n, t)
  {
    match t
    case TRep(p) => WellFormedResolved(n, d, p);
    case TSeq(p1, p2) => WellFormedResolved(n, d, p1); WellFormedResolved(n, d, p2);
    case TChoice(p1, p2) => WellFormedResolved(n, d, p1); WellFormedResolved(n, d, p2);
    case TNot(p) => WellFormedResolved(n, d, p);
    case TAnd(p) => WellFormedResolved(n, d, p);
    case TBehind(_, p) => WellFormedResolved(n, d, p);
    case TCapture(_, p) => WellFormedResolved(n, d, p);
    case _ =>
  }
}
